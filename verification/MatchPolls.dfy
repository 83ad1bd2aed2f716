/**
 * How votes close, whoever closes them: the timer, the last vote, a drop, a return, an exit or a
 * removal.  Main results: `CommandsCountTheVote` and `TimersCountTheVote`, for every match with the
 * invariant, so for every reachable one and for every state inside a tick.
 */
module MatchPolls {
  import opened Basics
  import Words
  import opened MatchTypes
  import opened MatchRules
  import opened MatchClock
  import opened MatchCommands
  import opened MatchInvariant
  import opened MatchKeeps
  import opened MatchVotes

  /**
   * What must become of a vote in state `v`: it is counted, as the table chose, exactly when every
   * connected voter has voted; otherwise it stays open as it is.
   */
  ghost predicate Counted(v: State, r: State) {
    if AllConnectedVoted(v) then TallyDone(v, r) else r == v.(version := r.version)
  }

  ghost predicate DecidedBy(r: State, reason: EndReason) {
    EndedBecause(r, reason) && r.result.value.winner == WinnerOf(reason)
  }

  /** What must become of a match that loses `gone` at one moment, judged when all of them are out. */
  ghost predicate Decided(s: State, r: State, gone: set<Id>) {
    if s.setup.impostor in gone then DecidedBy(r, ImpostorGone)
    else if s.phase == ImpostorGuess then r.phase == ImpostorGuess
    else |ActiveCitizens(s) - gone| <= 1 ==> DecidedBy(r, ImpostorParity)
  }

  /** ... and of a vote that loses them: the match is over, or the vote goes on without them. */
  ghost predicate VoteLoses(s: State, v: State, r: State, gone: set<Id>) {
    && Decided(s, r, gone)
    && (s.setup.impostor !in gone && 2 <= |ActiveCitizens(s) - gone| ==> Counted(v, r))
  }

  lemma TallyVersion(v: State, r: State, version: nat)
    requires TallyDone(v, r)
    ensures TallyDone(v, r.(version := version))
  {
    hide ChoiceOf, ActiveCitizens, Elements, Distinct;
  }

  lemma CountedVersion(v: State, r: State, version: nat)
    requires Counted(v, r)
    ensures Counted(v, r.(version := version))
  {
    hide AllConnectedVoted, TallyDone;
    if AllConnectedVoted(v) { TallyVersion(v, r, version); }
  }

  lemma AdvanceCounts(v: State, at: Time)
    requires Consistent(v) && InVote(v.phase)
    ensures Live(v) && Counted(v, MaybeAdvance(v, at))
  {
    hide Steady, Tally, AllConnectedVoted, TallyDone, Changes;
    ConsistentIsWf(v);
    if AllConnectedVoted(v) { TallyFollows(v, at); }
  }

  lemma ConsistentIsWf(s: State)
    requires Consistent(s)
    ensures Wf(s) && Steady(s) && Strikes(s.players)
  {
  }

  // ----- losing players -----

  lemma CitizensLeft(s: State, gone: set<Id>, status: Status)
    requires Wf(s) && MayGo(s, gone, status)
    ensures ActiveCitizens(Without(s, gone, status)) == ActiveCitizens(s) - gone
  {
    WithoutKeepsShape(s, gone, status);
  }

  /** What `removeAll` makes of the match is decided with all of `gone` out. */
  lemma RemovalDecides(s: State, gone: set<Id>, status: Status, at: Time)
    requires Live(s) && MayGo(s, gone, status) && s.setup.impostor in Actives(s.players)
    ensures Decided(s, RemoveAll(s, gone, status, at), gone)
  {
    hide Judge, Without, Changes, PlayersMove, ValidSetup, Elements, Drop, ActiveCitizens, Decided;
    WithoutKeepsShape(s, gone, status);
    CitizensLeft(s, gone, status);
    var t := Without(s, gone, status);
    WithoutSame(s, gone, status);
    JudgeDecides(t, s.setup.impostor in gone, s.phase == Hints && Holder(s) in gone, at);
    DecidedWithout(s, t, RemoveAll(s, gone, status, at), gone);
  }

  lemma WithoutSame(s: State, gone: set<Id>, status: Status)
    ensures var t := Without(s, gone, status);
      t.setup == s.setup && t.phase == s.phase && t.result == s.result && t.turn == s.turn
  {
  }

  lemma DecidedWithout(s: State, t: State, r: State, gone: set<Id>)
    requires t.setup == s.setup && t.phase == s.phase && ActiveCitizens(t) == ActiveCitizens(s) - gone
    requires s.setup.impostor in gone ==> DecidedBy(r, ImpostorGone)
    requires s.setup.impostor !in gone ==> Decided(t, r, {})
    ensures Decided(s, r, gone)
  {
    hide DecidedBy;
    assert ActiveCitizens(t) - {} == ActiveCitizens(t);
  }

  lemma JudgeDecides(s: State, impostorGone: bool, holderGone: bool, at: Time)
    requires Live(s) && (!impostorGone ==> s.setup.impostor in Actives(s.players))
    ensures var r := Judge(s, impostorGone, holderGone, at);
      && (impostorGone ==> DecidedBy(r, ImpostorGone))
      && (!impostorGone ==> Decided(s, r, {}))
  {
    hide MaybeAdvance, StartTurn, Changes, PlayersMove, ValidSetup, Elements;
    assert ActiveCitizens(s) - {} == ActiveCitizens(s);
  }

  lemma RemovalCounts(s: State, gone: set<Id>, status: Status, at: Time)
    requires Live(s) && MayGo(s, gone, status) && Steady(s) && InVote(s.phase)
    requires Strikes(Without(s, gone, status).players)
    ensures VoteLoses(s, Without(s, gone, status), RemoveAll(s, gone, status, at), gone)
  {
    hide Bereft, Without, Steady, Strikes, Changes, PlayersMove, Decided, Counted, Actives, ValidSetup, MaybeAdvance,
      Consistent, Elements;
    ImpostorPlays(s);
    RemovalDecides(s, gone, status, at);
    if s.setup.impostor !in gone && 2 <= |ActiveCitizens(s) - gone| {
      WithoutKeepsShape(s, gone, status);
      BereftAfter(s, gone, status);
      VoteGoesOn(s, gone, status, at);
    }
  }

  lemma ImpostorPlays(s: State)
    requires Steady(s) && s.phase != Ended
    ensures s.setup.impostor in Actives(s.players)
  {
  }

  /** Where both sides are left a vote goes on without those gone. */
  lemma VoteGoesOn(s: State, gone: set<Id>, status: Status, at: Time)
    requires Live(s) && MayGo(s, gone, status) && InVote(s.phase) && s.setup.impostor in Actives(s.players)
    requires Bereft(Without(s, gone, status), false, false)
    requires s.setup.impostor !in gone && 2 <= |ActiveCitizens(s) - gone|
    ensures Counted(Without(s, gone, status), RemoveAll(s, gone, status, at))
  {
    hide Bereft, Changes, PlayersMove, Counted, ValidSetup, MaybeAdvance, Consistent, Elements, Drop, Playing;
    var v := Without(s, gone, status);
    WithoutKeepsShape(s, gone, status);
    CitizensLeft(s, gone, status);
    ActivesSplit(v);
    BereftIsConsistent(v, false, false);
    AdvanceCounts(v, at);
  }

  // ----- timers -----

  /** A timer in a vote counts it, or takes third strikes out of it. */
  lemma TimersCountTheVote(s: State)
    requires Live(s) && Inv(s) && InVote(s.phase)
    ensures match NextTimer(s)
      case PhaseDue(_) => TallyDone(s, Step(s))
      case StrikeDue(at) =>
        var t := Strike(s, at);
        if OutAt(s, at) == {} then Step(s) == t.(version := Step(s).version)
        else VoteLoses(t, Without(t, OutAt(s, at), Removed), Step(s), OutAt(s, at))
      case Idle => false
  {
    hide Inv, Step, TallyDone, Changes, VoteLoses, EarliestStrike, Without, Strike, OutAt, Wf;
    match NextTimer(s)
    case PhaseDue(at) => PhaseStep(s, at);
    case StrikeDue(at) => StrikeStep(s, at);
  }

  lemma PhaseStep(s: State, at: Time)
    requires Live(s) && Inv(s) && InVote(s.phase) && NextTimer(s) == PhaseDue(at)
    ensures TallyDone(s, Step(s))
  {
    hide Inv, Consistent, Tally, TallyDone, Changes, EarliestStrike, ValidSetup, Elements;
    InvIsConsistent(s);
    TallyFollows(s, at);
    TallyVersion(s, Tally(s, at), s.version + 1);
  }

  lemma StrikeStep(s: State, at: Time)
    requires Live(s) && Inv(s) && InVote(s.phase) && NextTimer(s) == StrikeDue(at)
    ensures var t, r := Strike(s, at), Step(s);
      if OutAt(s, at) == {} then r == t.(version := r.version)
      else VoteLoses(t, Without(t, OutAt(s, at), Removed), r, OutAt(s, at))
  {
    hide Inv, Wf, Changes, CountStrikes, VoteLoses, Without, Strike, OutAt, EarliestStrike;
    StrikeCounts(s, at);
  }

  lemma StrikeCounts(s: State, at: Time)
    requires Live(s) && Inv(s) && InVote(s.phase)
    ensures var t, r := Strike(s, at), CountStrikes(s, at);
      if OutAt(s, at) == {} then r == t
      else VoteLoses(t, Without(t, OutAt(s, at), Removed), r.(version := s.version + 1), OutAt(s, at))
  {
    hide Inv, Board, Strikes, Filed, TurnsDone, Ballot, Verdict, TurnClock, Changes, PlayersMove, RemoveAll,
      VoteLoses, Without, Strike, OutAt, NotLingering;
    InvIsConsistent(s);
    if OutAt(s, at) != {} {
      var t := Strike(s, at);
      StrikeKeepsShape(s, at);
      StrikesAfter(s, at);
      StrikeTouches(s, at);
      PlayersTouched(s, t.players);
      RemovalCounts(t, OutAt(s, at), Removed, at);
      VoteLosesVersion(t, Without(t, OutAt(s, at), Removed), CountStrikes(s, at), OutAt(s, at), s.version + 1);
    }
  }

  lemma VoteLosesVersion(s: State, v: State, r: State, gone: set<Id>, version: nat)
    requires VoteLoses(s, v, r, gone)
    ensures VoteLoses(s, v, r.(version := version), gone)
  {
    hide Counted, ActiveCitizens;
    if Counted(v, r) { CountedVersion(v, r, version); }
  }

  // ----- commands -----

  /** The vote with a command's own effect in, before anything is counted. */
  ghost function Polled(s: State, now: Time, c: Command): State
    requires Wf(s)
  {
    match c
    case Vote(id, target) => s.(votes := s.votes[id := target], voteCast := true)
    case Disconnect(id) => if id in s.players && s.players[id].connected then Dropped(s, id, now) else s
    case Reconnect(id) => if id in s.players && !s.players[id].connected then Returned(s, id) else s
    case Leave(id) => if id in s.players && s.players[id].Watching() then Without(s, {id}, Left) else s
    case _ => s
  }

  /** Nothing of a vote has changed. */
  ghost predicate SamePoll(s: State, r: State) {
    r == s.(version := r.version, hints := r.hints, pending := r.pending)
  }

  /** What must follow a command given while a vote is open. */
  ghost predicate CommandFollows(s: State, now: Time, c: Command, r: (State, Reply))
    requires Wf(s)
  {
    if r.1 != Ok then r.0 == s
    else match c
      case Vote(_, _) => Counted(Polled(s, now, c), r.0)
      case Disconnect(_) => Counted(Polled(s, now, c), r.0)
      case Reconnect(_) => Counted(Polled(s, now, c), r.0)
      case Leave(id) =>
        if id in s.players && s.players[id].Watching() then VoteLoses(s, Polled(s, now, c), r.0, {id}) else r.0 == s
      case _ => SamePoll(s, r.0)
  }

  lemma OpenVoteStays(s: State)
    requires NotLingering(s) && InVote(s.phase)
    ensures Counted(s, s)
  {
    hide AllConnectedVoted;
  }

  lemma VotedIsConsistent(s: State, id: Id, target: Id)
    requires Consistent(s) && InVote(s.phase) && id in Actives(s.players) && id != target && target in s.candidates
    ensures Consistent(s.(votes := s.votes[id := target], voteCast := true))
  {
    hide Board, Strikes, Filed, TurnsDone, ActiveIds, Distinct, TurnClock, Verdict, Teams, ValidSetup;
    var t := s.(votes := s.votes[id := target], voteCast := true);
    TeamsSame(s, t);
    forall v <- t.votes ensures VoteOk(t, v) {
      if v != id { assert VoteOk(s, v); }
    }
  }

  lemma VoteCounts(s: State, id: Id, target: Id, now: Time)
    requires Wf(s) && Inv(s) && InVote(s.phase)
    ensures CommandFollows(s, now, Vote(id, target), ActVote(s, id, target, now))
  {
    hide Consistent, Steady, MaybeAdvance, NotLingering, Inv, Counted, Shape;
    InvIsConsistent(s);
    if ActVote(s, id, target, now).1 == Ok {
      var t := s.(votes := s.votes[id := target], voteCast := true);
      VotedIsConsistent(s, id, target);
      AdvanceCounts(t, now);
      CountedVersion(t, MaybeAdvance(t, now), MaybeAdvance(t, now).version + 1);
    }
  }

  lemma LineMoves(s: State, id: Id, now: Time)
    requires Consistent(s) && InVote(s.phase) && id in s.players
    ensures Wf(s)
    ensures s.players[id].connected ==> Consistent(Dropped(s, id, now))
    ensures !s.players[id].connected ==> Consistent(Returned(s, id))
  {
    hide Steady, Changes, Actives, Elements, ValidSetup;
    ConsistentIsWf(s);
    assert StrikesOk(s.players[id]);
    if s.players[id].connected {
      OnePlayerTouched(s, id, Dropped(s, id, now).players[id]);
      assert Dropped(s, id, now) == s.(players := s.players[id := Dropped(s, id, now).players[id]]);
    } else {
      OnePlayerTouched(s, id, Returned(s, id).players[id]);
      assert Returned(s, id) == s.(players := s.players[id := Returned(s, id).players[id]]);
    }
  }

  lemma DropCounts(s: State, id: Id, now: Time)
    requires Wf(s) && Inv(s) && InVote(s.phase)
    ensures CommandFollows(s, now, Disconnect(id), ActDisconnect(s, id, now))
  {
    hide Steady, Consistent, MaybeAdvance, Inv, NotLingering, Changes, Actives, Elements, ValidSetup, Counted,
      Dropped;
    InvIsConsistent(s);
    if Watcher(s, id) == Ok && s.players[id].connected {
      var t := Dropped(s, id, now);
      LineMoves(s, id, now);
      AdvanceCounts(t, now);
      CountedVersion(t, MaybeAdvance(t, now), MaybeAdvance(t, now).version + 1);
    } else {
      OpenVoteStays(s);
    }
  }

  lemma ReturnCounts(s: State, id: Id, now: Time)
    requires Wf(s) && Inv(s) && InVote(s.phase)
    ensures CommandFollows(s, now, Reconnect(id), ActReconnect(s, id, now))
  {
    hide Steady, Consistent, MaybeAdvance, Inv, NotLingering, Changes, Actives, Elements, ValidSetup, Counted,
      Returned;
    InvIsConsistent(s);
    if Watcher(s, id) == Ok && !s.players[id].connected {
      var t := Returned(s, id);
      LineMoves(s, id, now);
      AdvanceCounts(t, now);
      CountedVersion(t, MaybeAdvance(t, now), MaybeAdvance(t, now).version + 1);
    } else {
      OpenVoteStays(s);
    }
  }

  lemma LeaveCounts(s: State, id: Id, now: Time)
    requires Wf(s) && Inv(s) && InVote(s.phase)
    ensures CommandFollows(s, now, Leave(id), ActLeave(s, id, now))
  {
    hide Steady, RemoveAll, Inv, Without, VoteLoses, NotLingering;
    InvIsConsistent(s);
    if id in s.players && s.players[id].Watching() {
      assert StrikesOk(s.players[id]);
      LeftStrikes(s, id);
      RemovalCounts(s, {id}, Left, now);
      VoteLosesVersion(s, Without(s, {id}, Left), RemoveAll(s, {id}, Left, now), {id}, s.version + 1);
    }
  }

  lemma OthersLeaveTheVote(s: State, now: Time, c: Command)
    requires Wf(s) && InVote(s.phase)
    requires c.ConfirmRole? || c.SubmitHint? || c.React? || c.SubmitGuess? || c.ContinueAfterElimination?
    ensures CommandFollows(s, now, c, Act(s, now, c))
  {
    hide ValidSetup, Actives, Elements, MaybeAdvance, End, HintVerdict, ActReact, Words.Accepts, Tidy, Shape,
      Counted, VoteLoses, Confirm;
    if c.SubmitHint? { HintNeedsHints(s, c.id, Tidy(s.setup.policy.alphabet, c.text)); }
    if c.React? { ReactLeavesTheVote(s, c.id, c.hintIndex, c.reaction); }
  }

  lemma ReactLeavesTheVote(s: State, id: Id, k: int, reaction: string)
    requires Wf(s)
    ensures var r := ActReact(s, id, k, reaction); if r.1 != Ok then r.0 == s else SamePoll(s, r.0)
  {
    hide ValidSetup, Actives, Elements, Land, Added, Shape;
  }

  lemma HintNeedsHints(s: State, id: Id, text: string)
    requires Wf(s) && s.phase != Hints
    ensures HintVerdict(s, id, text) != Ok
  {
    hide ValidSetup, Actives, Elements, Words.Normalize, Words.ContainsSecret, RepeatsHint;
  }

  /**
   * While a vote is open, what a command does to it: a refused one nothing; a vote, a drop or a return
   * closes it exactly when then every connected voter has voted, and then it ends as the table chose;
   * an exit ends the match or leaves the vote to the others, by the same rule; no other command touches it.
   */
  lemma CommandsCountTheVote(s: State, now: Time, c: Command)
    requires Wf(s) && Inv(s) && InVote(Tick(s, now).phase)
    ensures CommandFollows(Tick(s, now), now, c, Apply(s, now, c))
  {
    hide Inv, Wf, CommandFollows, ActVote, ActLeave, ActDisconnect, ActReconnect;
    var t := Tick(s, now);
    TickInv(s, now);
    match c
    case Vote(id, target) => VoteCounts(t, id, target, now);
    case Disconnect(id) => DropCounts(t, id, now);
    case Reconnect(id) => ReturnCounts(t, id, now);
    case Leave(id) => LeaveCounts(t, id, now);
    case ConfirmRole(_) => OthersLeaveTheVote(t, now, c);
    case SubmitHint(_, _) => OthersLeaveTheVote(t, now, c);
    case React(_, _, _) => OthersLeaveTheVote(t, now, c);
    case SubmitGuess(_, _) => OthersLeaveTheVote(t, now, c);
    case ContinueAfterElimination(_) => OthersLeaveTheVote(t, now, c);
  }
}
