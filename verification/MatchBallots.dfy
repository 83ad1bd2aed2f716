/**
 * The votes in hand against an independent record: the last accepted vote of every voter since the vote
 * opened, read off the calls and their replies, less those by or for players who have gone.
 */
module MatchBallots {
  import opened Basics
  import Words
  import opened MatchTypes
  import opened MatchRules
  import opened MatchClock
  import opened MatchCommands
  import opened MatchInvariant
  import opened MatchKeeps
  import opened MatchOpening

  /** The votes of players still playing for players still playing. */
  ghost function Standing(votes: map<Id, Id>, playing: set<Id>): map<Id, Id> {
    map v | v in votes && v in playing && votes[v] in playing :: votes[v]
  }

  lemma StandingTwice(votes: map<Id, Id>, a: set<Id>, b: set<Id>)
    requires b <= a
    ensures Standing(Standing(votes, a), b) == Standing(votes, b)
  {
  }

  /** Both states are in the same vote: none has been counted in between. */
  ghost predicate SameVote(s: State, r: State) {
    InVote(s.phase) && InVote(r.phase) && |s.voteRounds| == |r.voteRounds|
  }

  /**
   * What happens to a vote with votes `m` between `s` and `r`: while it is open the standing votes of `m`
   * are in hand, a vote that has opened in between has none, and one that has closed was counted or the
   * match is over.
   */
  ghost predicate Holds(s: State, r: State, m: map<Id, Id>) {
    && |s.voteRounds| <= |r.voteRounds| && Actives(r.players) <= Actives(s.players)
    && (s.phase == Ended ==> r.phase == Ended)
    && (InVote(r.phase) ==> r.votes == if SameVote(s, r) then Standing(m, Actives(r.players)) else map[])
    && (InVote(s.phase) && |r.voteRounds| == |s.voteRounds| ==> InVote(r.phase) || r.phase == Ended)
  }

  lemma HoldsOn(s: State, t: State, r: State, m: map<Id, Id>)
    requires Holds(s, t, m) && Holds(t, r, t.votes)
    ensures Holds(s, r, m)
  {
    if SameVote(s, r) { StandingTwice(m, Actives(t.players), Actives(r.players)); }
  }

  // ----- rules -----

  /** A rule counts the vote or leaves it as it is. */
  ghost predicate Polls(s: State, r: State) {
    && |s.voteRounds| <= |r.voteRounds| && Actives(r.players) <= Actives(s.players)
    && (InVote(r.phase) ==>
          if SameVote(s, r) then r.votes == s.votes && Actives(r.players) == Actives(s.players) else r.votes == map[])
    && (InVote(s.phase) && |r.voteRounds| == |s.voteRounds| ==> InVote(r.phase) || r.phase == Ended)
  }

  lemma PollsSame(s: State, r: State)
    requires r.phase == s.phase && r.voteRounds == s.voteRounds && r.votes == s.votes
    requires Actives(r.players) == Actives(s.players)
    ensures Polls(s, r)
  {
  }

  lemma MovesKeepActives(p: map<Id, Player>, q: map<Id, Player>)
    requires PlayersMove(p, q)
    ensures Actives(q) <= Actives(p)
  {
    forall id <- Actives(q) ensures id in Actives(p) {
      assert StatusMove(p[id].status, q[id].status);
    }
  }

  lemma StartTurnPolls(s: State, from: nat, at: Time)
    requires Live(s) && from <= |s.setup.order| && !InVote(s.phase)
    ensures Polls(s, StartTurn(s, from, at))
  {
    hide StartTurn, Changes, PlayersMove, ValidSetup, TurnClock, Actives, RunsPast;
  }

  lemma StartRoundPolls(s: State, at: Time)
    requires Live(s)
    ensures var r := StartRound(s, at);
      !InVote(r.phase) && r.voteRounds == s.voteRounds && r.players == s.players
  {
    hide StartTurn, Changes, PlayersMove, ValidSetup, TurnClock, Actives, RunsPast;
  }

  lemma TallyPolls(s: State, at: Time)
    requires Live(s) && InVote(s.phase)
    ensures Polls(s, Tally(s, at))
  {
    hide StartRound, ValidSetup, Actives, Elements, Top, Most, RunsPast, Eliminate, PlayersMove;
    StartRoundPolls(FileVotes(s), at);
    MovesKeepActives(s.players, Tally(s, at).players);
    if |Top(s.candidates, s.votes)| == 1 {
      TopIsCandidate(s.candidates, s.votes);
      EliminateFiles(FileVotes(s), Top(s.candidates, s.votes)[0], at);
    }
  }

  lemma EliminateFiles(s: State, id: Id, at: Time)
    requires Live(s) && id in Actives(s.players)
    ensures Eliminate(s, id, at).voteRounds == s.voteRounds && !InVote(Eliminate(s, id, at).phase)
  {
    hide ValidSetup, Elements, ActiveCitizens, ActiveImpostors, Changes, PlayersMove, RunsPast;
  }

  lemma MaybeAdvancePolls(s: State, at: Time)
    requires Live(s)
    ensures Polls(s, MaybeAdvance(s, at))
  {
    hide StartTurn, Tally, StartRound, PlayersMove, ValidSetup, Actives, AllConnectedAcked, AllConnectedVoted, Changes;
    PollsSame(s, s);
    if InVote(s.phase) {
      TallyPolls(s, at);
    } else if s.phase == RoleReveal {
      StartTurnPolls(s, 0, at);
    } else if s.phase == EliminationReveal {
      StartRoundPolls(s, at);
    }
  }

  lemma EndPolls(s: State, winner: Team, reason: EndReason)
    requires Live(s)
    ensures Polls(s, End(s, winner, reason))
  {
    hide ValidSetup, Elements, Actives;
  }

  lemma JudgePolls(s: State, impostorGone: bool, holderGone: bool, at: Time)
    requires Live(s) && (holderGone ==> s.phase == Hints)
    ensures Polls(s, Judge(s, impostorGone, holderGone, at))
  {
    hide MaybeAdvance, StartTurn, End, PlayersMove, ValidSetup, Actives, Changes, ActiveCitizens, ActiveImpostors,
      Polls;
    PollsSame(s, s);
    EndPolls(s, Citizens, ImpostorGone);
    EndPolls(s, Impostor, ImpostorParity);
    EndPolls(s, NoTeam, NotEnoughPlayers);
    MaybeAdvancePolls(s, at);
    if s.phase == Hints { StartTurnPolls(s, s.turn + 1, at); }
  }

  lemma ExpirePolls(s: State, at: Time)
    requires Live(s)
    ensures Polls(s, Expire(s, at))
  {
    hide StartRound, StartTurn, Tally, PlayersMove, ValidSetup, Actives, Changes, ActiveIds, End;
    match s.phase
    case RoleReveal => StartTurnPolls(s, 0, at);
    case Hints => StartTurnPolls(s.(hints := s.hints + [MissingHint(s)], pending := map[]), s.turn + 1, at);
    case HintBreak => StartTurnPolls(s, s.turn + 1, at);
    case PreVoting =>
    case Voting => TallyPolls(s, at);
    case RunoffVoting => TallyPolls(s, at);
    case EliminationReveal => StartRoundPolls(s, at);
    case ImpostorGuess => EndPolls(s, Citizens, ImpostorGuessTimeout);
  }

  // ----- timers -----

  /** A change that keeps phase and record, and then a rule. */
  lemma HoldsFrom(s: State, t: State, r: State, m: map<Id, Id>)
    requires Polls(t, r) && s.phase != Ended
    requires t.phase == s.phase && t.voteRounds == s.voteRounds && Actives(t.players) <= Actives(s.players)
    requires InVote(s.phase) ==> t.votes == Standing(m, Actives(t.players))
    ensures forall version :: Holds(s, r.(version := version), m)
  {
  }

  /** Every vote in hand is one of a player still playing for another. */
  ghost predicate Stands(s: State) { InVote(s.phase) ==> s.votes == Standing(s.votes, Actives(s.players)) }

  lemma InvStands(s: State)
    requires Inv(s)
    ensures Wf(s) && Stands(s)
  {
    if InVote(s.phase) {
      forall v <- s.votes ensures v in Actives(s.players) && s.votes[v] in Actives(s.players) {
        assert VoteOk(s, v);
        assert s.votes[v] in Elements(s.candidates);
      }
    }
  }

  lemma WithoutStands(s: State, gone: set<Id>, status: Status)
    requires Wf(s) && MayGo(s, gone, status) && s.votes == Standing(s.votes, Actives(s.players))
    ensures var t := Without(s, gone, status); t.votes == Standing(s.votes, Actives(t.players))
  {
    hide ValidSetup, Elements;
    WithoutKeepsShape(s, gone, status);
  }

  lemma RemoveAllHolds(s: State, gone: set<Id>, status: Status, at: Time)
    requires Live(s) && Stands(s) && MayGo(s, gone, status)
    ensures forall version :: Holds(s, RemoveAll(s, gone, status, at).(version := version), s.votes)
  {
    hide Judge, ValidSetup, Elements, Changes, Drop, Polls, Standing, PlayersMove, Actives;
    WithoutKeepsShape(s, gone, status);
    var t := Without(s, gone, status);
    JudgePolls(t, s.setup.impostor in gone, s.phase == Hints && Holder(s) in gone, at);
    if InVote(s.phase) { WithoutStands(s, gone, status); }
    HoldsFrom(s, t, RemoveAll(s, gone, status, at), s.votes);
  }

  lemma CountStrikesHolds(s: State, at: Time)
    requires Live(s) && Stands(s)
    ensures forall version :: Holds(s, CountStrikes(s, at).(version := version), s.votes)
  {
    hide RemoveAll, ValidSetup, Elements, OutAt, StruckAt, Changes, Polls, Standing, PlayersMove, Strike;
    StrikeKeepsShape(s, at);
    StrikeTouches(s, at);
    var t := Strike(s, at);
    assert Actives(t.players) == Actives(s.players);
    if OutAt(s, at) != {} {
      RemoveAllHolds(t, OutAt(s, at), Removed, at);
    } else {
      PollsSame(s, t);
      HoldsFrom(s, s, t, s.votes);
    }
  }

  lemma StepHolds(s: State)
    requires Live(s) && Inv(s)
    ensures Holds(s, Step(s), s.votes)
  {
    hide CountStrikes, Expire, Inv, Wf, Actives, EarliestStrike, OutAt, Holds, Polls;
    InvStands(s);
    match NextTimer(s)
    case StrikeDue(at) => CountStrikesHolds(s, at);
    case PhaseDue(at) =>
      ExpirePolls(s, at);
      HoldsFrom(s, s, Expire(s, at), s.votes);
  }

  lemma HoldsSelf(s: State)
    requires Inv(s)
    ensures Holds(s, s, s.votes)
  {
    hide Inv;
    InvStands(s);
  }

  lemma {:induction false} TickHolds(s: State, now: Time)
    requires Wf(s) && Inv(s)
    ensures Holds(s, Tick(s, now), s.votes)
    decreases PendingStrikes(s.players), Overdue(s, now)
  {
    hide Step, Inv, ValidSetup, Elements, Actives, Holds;
    if Due(s, now) {
      StepProgress(s, now);
      StepInv(s);
      StepHolds(s);
      TickHolds(Step(s), now);
      HoldsOn(s, Step(s), Tick(s, now), s.votes);
    } else {
      HoldsSelf(s);
    }
  }

  // ----- commands -----

  /** An accepted vote replaces the voter's last. */
  function Cast(votes: map<Id, Id>, c: Command, reply: Reply): map<Id, Id> {
    if c.Vote? && reply == Ok then votes[c.id := c.target] else votes
  }

  lemma ActHolds(s: State, now: Time, c: Command)
    requires Wf(s) && Inv(s)
    ensures var r := Act(s, now, c); Holds(s, r.0, Cast(s.votes, c, r.1))
  {
    hide ActConfirmRole, ActSubmitHint, ActReact, ActVote, ActSubmitGuess, ActContinueAfterElimination, ActDisconnect,
      ActReconnect, ActLeave, Inv, Wf, Actives, Holds;
    InvStands(s);
    match c
    case ConfirmRole(id) => ConfirmationsHold(s, id, now);
    case ContinueAfterElimination(id) => ConfirmationsHold(s, id, now);
    case SubmitHint(id, text) => SubmitHintHolds(s, id, text, now);
    case React(id, k, reaction) => ReactHolds(s, id, k, reaction);
    case Vote(id, target) => VoteHolds(s, id, target, now);
    case SubmitGuess(id, guess) => GuessHolds(s, id, guess);
    case Disconnect(id) => DisconnectHolds(s, id, now);
    case Reconnect(id) => ReconnectHolds(s, id, now);
    case Leave(id) => LeaveHolds(s, id, now);
  }

  lemma StandsHolds(s: State)
    requires Stands(s)
    ensures Holds(s, s, s.votes)
  {
  }

  /** A change to one player that is not a change of status, and what may follow from it. */
  lemma OnePlayerHolds(s: State, id: Id, p: Player, now: Time)
    requires Live(s) && Stands(s) && id in s.players && p.status == s.players[id].status
    ensures var t := s.(players := s.players[id := p]);
      Wf(t) && forall version :: Holds(s, MaybeAdvance(t, now).(version := version), s.votes)
  {
    hide MaybeAdvance, ValidSetup, Elements, Holds, Polls;
    var t := s.(players := s.players[id := p]);
    SameActives(s.players, id, p);
    MaybeAdvancePolls(t, now);
    HoldsFrom(s, t, MaybeAdvance(t, now), s.votes);
  }

  /** ... also where nothing follows but for the clocks. */
  lemma OnePlayerStays(s: State, r: State)
    requires Stands(s) && r.phase == s.phase && r.voteRounds == s.voteRounds && r.votes == s.votes
    requires Actives(r.players) == Actives(s.players)
    ensures Holds(s, r, s.votes)
  {
  }

  lemma ConfirmationsHold(s: State, id: Id, now: Time)
    requires Wf(s) && Stands(s)
    ensures Holds(s, ActConfirmRole(s, id, now).0, s.votes)
    ensures Holds(s, ActContinueAfterElimination(s, id, now).0, s.votes)
  {
    hide MaybeAdvance, ValidSetup, Actives, Shape, Holds, Stands;
    StandsHolds(s);
    if id in s.players && s.phase != Ended { OnePlayerHolds(s, id, Confirm(s, id).players[id], now); }
  }

  lemma SubmitHintHolds(s: State, id: Id, text: string, now: Time)
    requires Wf(s) && Stands(s)
    ensures Holds(s, ActSubmitHint(s, id, text, now).0, s.votes)
  {
    hide ValidSetup, Actives, Tidy, Words.Normalize, Words.ContainsSecret, RepeatsHint, Standing;
  }

  lemma ReactHolds(s: State, id: Id, k: int, reaction: string)
    requires Wf(s) && Stands(s)
    ensures Holds(s, ActReact(s, id, k, reaction).0, s.votes)
  {
    hide ValidSetup, Land, Added, Shape, Elements, Stands, Actives, Holds;
    StandsHolds(s);
    OnePlayerStays(s, ActReact(s, id, k, reaction).0);
  }

  lemma VoteHolds(s: State, id: Id, target: Id, now: Time)
    requires Wf(s) && Stands(s)
    ensures var r := ActVote(s, id, target, now); Holds(s, r.0, if r.1 == Ok then s.votes[id := target] else s.votes)
  {
    hide MaybeAdvance, ValidSetup, Holds, Polls;
    if ActVote(s, id, target, now).1 == Ok {
      var t := s.(votes := s.votes[id := target], voteCast := true);
      assert target in Elements(s.candidates);
      MaybeAdvancePolls(t, now);
      HoldsFrom(s, t, MaybeAdvance(t, now), t.votes);
    } else {
      StandsHolds(s);
    }
  }

  lemma GuessHolds(s: State, id: Id, guess: string)
    requires Wf(s) && Stands(s)
    ensures Holds(s, ActSubmitGuess(s, id, guess).0, s.votes)
  {
    hide ValidSetup, Actives, Words.Accepts, Aliases, Standing;
  }

  lemma DisconnectHolds(s: State, id: Id, now: Time)
    requires Wf(s) && Stands(s)
    ensures Holds(s, ActDisconnect(s, id, now).0, s.votes)
  {
    hide MaybeAdvance, ValidSetup, Actives, Holds, Stands, Elements;
    StandsHolds(s);
    if Watcher(s, id) == Ok && s.players[id].connected {
      var q := Dropped(s, id, now).players[id];
      SameActives(s.players, id, q);
      if s.phase != Ended { OnePlayerHolds(s, id, q, now); }
      if !(s.phase == RoleReveal || s.phase == EliminationReveal || InVote(s.phase)) {
        OnePlayerStays(s, ActDisconnect(s, id, now).0);
      }
    }
  }

  lemma ReconnectHolds(s: State, id: Id, now: Time)
    requires Wf(s) && Stands(s)
    ensures Holds(s, ActReconnect(s, id, now).0, s.votes)
  {
    hide MaybeAdvance, ValidSetup, Actives, Holds, Stands, Elements;
    StandsHolds(s);
    if Watcher(s, id) == Ok && !s.players[id].connected {
      var q := Returned(s, id).players[id];
      SameActives(s.players, id, q);
      if s.phase != Ended { OnePlayerHolds(s, id, q, now); }
      if !InVote(s.phase) { OnePlayerStays(s, ActReconnect(s, id, now).0); }
    }
  }

  lemma LeaveHolds(s: State, id: Id, now: Time)
    requires Wf(s) && Stands(s)
    ensures Holds(s, ActLeave(s, id, now).0, s.votes)
  {
    hide RemoveAll, ValidSetup, Actives, Holds, Stands;
    StandsHolds(s);
    if id in s.players && s.phase != Ended && s.players[id].Watching() {
      RemoveAllHolds(s, {id}, Left, now);
    }
  }

  // ----- whole runs -----

  /** The last accepted vote of everybody, by the record of calls and their replies. */
  function LastVotes(votes: map<Id, Id>, events: seq<Event>, replies: seq<Reply>): map<Id, Id>
    decreases |events|
  {
    if events == [] then votes
    else if events[0].Timer? then LastVotes(votes, events[1..], replies)
    else if replies == [] then votes
    else LastVotes(Cast(votes, events[0].command, replies[0]), events[1..], replies[1..])
  }

  /** Votes that do not stand at the end make no difference to the record. */
  lemma {:induction false} LastVotesStand(a: map<Id, Id>, b: map<Id, Id>, events: seq<Event>, replies: seq<Reply>,
    playing: set<Id>)
    requires Standing(a, playing) == Standing(b, playing)
    ensures Standing(LastVotes(a, events, replies), playing) == Standing(LastVotes(b, events, replies), playing)
    decreases |events|
  {
    if events != [] {
      match events[0]
      case Timer(_) => LastVotesStand(a, b, events[1..], replies, playing);
      case Call(_, c) =>
        if replies != [] {
          CastStands(a, b, c, replies[0], playing);
          LastVotesStand(Cast(a, c, replies[0]), Cast(b, c, replies[0]), events[1..], replies[1..], playing);
        }
    }
  }

  lemma CastStands(a: map<Id, Id>, b: map<Id, Id>, c: Command, reply: Reply, playing: set<Id>)
    requires Standing(a, playing) == Standing(b, playing)
    ensures Standing(Cast(a, c, reply), playing) == Standing(Cast(b, c, reply), playing)
  {
    var x, y := Cast(a, c, reply), Cast(b, c, reply);
    forall v ensures v in Standing(x, playing) <==> v in Standing(y, playing) {
      assert v in Standing(a, playing) <==> v in Standing(b, playing);
    }
    forall v <- Standing(x, playing) ensures x[v] == y[v] {
      assert v in Standing(a, playing) ==> Standing(a, playing)[v] == Standing(b, playing)[v];
    }
  }

  /** The vote of `r`, open with no votes yet when call `j` comes, or when that call has ticked. */
  ghost predicate OpenBefore(s: State, events: seq<Event>, j: nat, r: State)
    requires Wf(s)
  {
    j <= |events| &&
    var t := Run(s, events[..j]).0;
    || (SameVote(t, r) && t.votes == map[])
    || (j < |events| && SameVote(Tick(t, events[j].at), r) && Tick(t, events[j].at).votes == map[])
  }

  /** The votes in hand in `r` are the last ones cast from call `j` on that stand. */
  ghost predicate InHandSince(s: State, events: seq<Event>, j: nat, r: State)
    requires Wf(s)
  {
    && OpenBefore(s, events, j, r)
    && r.votes == Standing(LastVotes(map[], events[j..], Run(Run(s, events[..j]).0, events[j..]).1), Actives(r.players))
  }

  /** The vote of `s` is still open at `r`, with the votes cast since added. */
  ghost predicate InHandStill(s: State, events: seq<Event>, r: State)
    requires Wf(s)
  {
    SameVote(s, r) && r.votes == Standing(LastVotes(s.votes, events, Run(s, events).1), Actives(r.players))
  }

  lemma SinceLater(s: State, events: seq<Event>, j: nat, r: State)
    requires Wf(s) && events != [] && InHandSince(Next(s, events[0]), events[1..], j, r)
    ensures InHandSince(s, events, j + 1, r)
  {
    hide Wf, Tick, Act, Actives, SameVote, Standing;
    assert events[..j + 1][0] == events[0] && events[..j + 1][1..] == events[1..][..j];
    assert events[j + 1..] == events[1..][j..];
  }

  /** A timer at the head of the run. */
  lemma TimerStill(s: State, events: seq<Event>, r: State)
    requires Wf(s) && events != [] && events[0].Timer?
    requires var t := Tick(s, events[0].at);
      Holds(s, t, s.votes) && InHandStill(t, events[1..], r) && Actives(r.players) <= Actives(t.players)
    ensures InHandStill(s, events, r) || InHandSince(s, events, 1, r)
  {
    hide Wf, Tick, Act, Actives, Standing;
    var t := Tick(s, events[0].at);
    if SameVote(s, t) {
      StandingTwice(s.votes, Actives(t.players), Actives(r.players));
      LastVotesStand(t.votes, s.votes, events[1..], Run(t, events[1..]).1, Actives(r.players));
    } else {
      FirstRun(s, events);
    }
  }

  lemma FirstRun(s: State, events: seq<Event>)
    requires Wf(s) && events != []
    ensures Run(s, events[..1]).0 == Next(s, events[0]) && Run(s, events[..0]).0 == s
    ensures events[0..] == events
  {
    hide Wf, Tick, Act;
    assert events[..1][1..] == [];
  }

  /** The votes that stand after a first command, and the record that begins with it. */
  lemma CastFirst(votes: map<Id, Id>, events: seq<Event>, reply: Reply, rest: seq<Reply>, next: map<Id, Id>,
    before: set<Id>, after: set<Id>)
    requires events != [] && events[0].Call? && after <= before
    requires next == Standing(Cast(votes, events[0].command, reply), before)
    ensures Standing(LastVotes(next, events[1..], rest), after) ==
      Standing(LastVotes(votes, events, [reply] + rest), after)
  {
    var cast := Cast(votes, events[0].command, reply);
    StandingTwice(cast, before, after);
    LastVotesStand(next, cast, events[1..], rest, after);
    assert ([reply] + rest)[1..] == rest;
  }

  lemma StandingFirst(votes: map<Id, Id>, events: seq<Event>, replies: seq<Reply>, next: map<Id, Id>, before: set<Id>,
    after: set<Id>)
    requires next == Standing(votes, before) && after <= before
    ensures Standing(LastVotes(next, events, replies), after) == Standing(LastVotes(votes, events, replies), after)
  {
    StandingTwice(votes, before, after);
    LastVotesStand(next, votes, events, replies, after);
  }

  /** A command at the head of the run: what its tick and the command itself leave, and what follows. */
  ghost predicate CallHolds(s: State, events: seq<Event>, r: State)
    requires Wf(s) && events != [] && events[0].Call?
  {
    var t := Tick(s, events[0].at);
    var u := Act(t, events[0].at, events[0].command);
    && Holds(s, t, s.votes) && Holds(t, u.0, Cast(t.votes, events[0].command, u.1))
    && InHandStill(u.0, events[1..], r) && Actives(r.players) <= Actives(u.0.players)
  }

  lemma CallStill(s: State, events: seq<Event>, r: State)
    requires Wf(s) && events != [] && events[0].Call? && CallHolds(s, events, r)
    ensures InHandStill(s, events, r) || InHandSince(s, events, 0, r) || InHandSince(s, events, 1, r)
  {
    hide Wf, Tick, Act, CallHolds, InHandStill, InHandSince, SameVote;
    var t := Tick(s, events[0].at);
    if !SameVote(t, Act(t, events[0].at, events[0].command).0) {
      CallOpensNext(s, events, r);
    } else if SameVote(s, t) {
      CallGoesOn(s, events, r);
    } else {
      CallCastsFirst(s, events, r);
    }
  }

  /** The votes cast from the command on, on top of those it finds after its tick. */
  lemma CallCasts(s: State, events: seq<Event>, r: State)
    requires Wf(s) && events != [] && events[0].Call? && CallHolds(s, events, r)
    requires var t := Tick(s, events[0].at); SameVote(t, Act(t, events[0].at, events[0].command).0)
    ensures var t := Tick(s, events[0].at);
      SameVote(t, r) && r.votes == Standing(LastVotes(t.votes, events, Run(s, events).1), Actives(r.players))
  {
    hide Wf, Tick, Act, Actives, Standing, Cast, LastVotes;
    var t := Tick(s, events[0].at);
    var u := Act(t, events[0].at, events[0].command);
    CastFirst(t.votes, events, u.1, Run(u.0, events[1..]).1, u.0.votes, Actives(u.0.players), Actives(r.players));
  }

  lemma CallGoesOn(s: State, events: seq<Event>, r: State)
    requires Wf(s) && events != [] && events[0].Call? && CallHolds(s, events, r)
    requires var t := Tick(s, events[0].at);
      SameVote(s, t) && SameVote(t, Act(t, events[0].at, events[0].command).0)
    ensures InHandStill(s, events, r)
  {
    hide Wf, Tick, Act, Actives, Standing, Cast, LastVotes, Run;
    var t := Tick(s, events[0].at);
    CallCasts(s, events, r);
    assert Actives(r.players) <= Actives(t.players);
    StandingFirst(s.votes, events, Run(s, events).1, t.votes, Actives(t.players), Actives(r.players));
  }

  lemma CallCastsFirst(s: State, events: seq<Event>, r: State)
    requires Wf(s) && events != [] && events[0].Call? && CallHolds(s, events, r)
    requires var t := Tick(s, events[0].at);
      !SameVote(s, t) && SameVote(t, Act(t, events[0].at, events[0].command).0)
    ensures InHandSince(s, events, 0, r)
  {
    hide Wf, Tick, Act, Actives, Standing, Cast, LastVotes;
    FirstRun(s, events);
    CallCasts(s, events, r);
  }

  lemma CallOpensNext(s: State, events: seq<Event>, r: State)
    requires Wf(s) && events != [] && events[0].Call? && CallHolds(s, events, r)
    requires var t := Tick(s, events[0].at); !SameVote(t, Act(t, events[0].at, events[0].command).0)
    ensures InHandSince(s, events, 1, r)
  {
    hide Wf, Tick, Act, Actives, Standing, Cast, LastVotes;
    FirstRun(s, events);
  }

  lemma {:induction false} RunHolds(s: State, events: seq<Event>)
    requires Wf(s) && Inv(s)
    ensures var r := Run(s, events).0;
      && Actives(r.players) <= Actives(s.players)
      && (InVote(r.phase) ==> InHandStill(s, events, r) || exists j: nat :: InHandSince(s, events, j, r))
    decreases |events|
  {
    hide Inv, Wf, Act, Tick, Actives, Standing, Cast, InHandStill, InHandSince;
    var r := Run(s, events).0;
    if events == [] {
      NothingCast(s);
    } else {
      var next := Next(s, events[0]);
      TickHolds(s, events[0].at);
      TickInv(s, events[0].at);
      if events[0].Call? {
        ActHolds(Tick(s, events[0].at), events[0].at, events[0].command);
        ActInv(Tick(s, events[0].at), events[0].at, events[0].command);
      }
      RunHolds(next, events[1..]);
      if InVote(r.phase) {
        if InHandStill(next, events[1..], r) {
          if events[0].Call? { CallStill(s, events, r); } else { TimerStill(s, events, r); }
        } else {
          var j: nat :| InHandSince(next, events[1..], j, r);
          SinceLater(s, events, j, r);
        }
      }
    }
  }

  lemma NothingCast(s: State)
    requires Wf(s) && Inv(s)
    ensures InVote(s.phase) ==> InHandStill(s, [], s)
  {
    hide Inv, Wf;
    InvStands(s);
  }

  /**
   * After whatever calls, the votes in hand are the last accepted votes, since a moment at which the same
   * vote was open without any, of those still playing for those still playing.
   */
  lemma VotesInHandAreTheLastCast(b: Start, events: seq<Event>)
    requires Legal(b) && InVote(Run(Begun(b), events).0.phase)
    ensures exists j: nat :: InHandSince(Begun(b), events, j, Run(Begun(b), events).0)
  {
    hide Inv, Wf, Legal, Begun, Run, InHandSince;
    var s := Begun(b);
    ReachableBegins(b);
    ReachableInv(s);
    RunHolds(s, events);
    BeginsInRoleReveal(b);
  }

  lemma BeginsInRoleReveal(b: Start)
    requires Legal(b)
    ensures Begun(b).phase == RoleReveal
  {
    hide Playable;
    MarkAllPhase(New(b.cfg, b.policy, b.ids, b.category, b.secret, b.order, b.seat, b.at).value, b.offline);
  }
}
