/** Every timer and every command keeps the invariant, so every run does. */
module MatchKeeps {
  import opened Basics
  import Words
  import opened MatchTypes
  import opened MatchRules
  import opened MatchClock
  import opened MatchCommands
  import opened MatchInvariant

  // ----- leaving and being removed -----

  lemma {:induction false} ActiveIdsDrop(order: seq<Id>, p: map<Id, Player>, q: map<Id, Player>, gone: set<Id>)
    requires Actives(q) == Actives(p) - gone
    ensures ActiveIds(order, q) == Drop(ActiveIds(order, p), gone)
  {
    if order != [] {
      ActiveIdsDrop(order[1..], p, q, gone);
      var rest := ActiveIds(order[1..], p);
      if order[0] in Actives(p) {
        assert ([order[0]] + rest)[1..] == rest;
      } else {
        assert [] + rest == rest;
      }
    }
  }

  lemma DistinctPrepend<T>(x: T, xs: seq<T>)
    requires Distinct(xs) && x !in xs
    ensures Distinct([x] + xs)
  {
  }

  lemma {:induction false} DropDistinct(xs: seq<Id>, gone: set<Id>)
    requires Distinct(xs)
    ensures Distinct(Drop(xs, gone))
  {
    if xs != [] {
      DropDistinct(xs[1..], gone);
      DropMembers(xs[1..], gone);
      DistinctPrepend(xs[0], Drop(xs[1..], gone));
    }
  }

  lemma DropMembers(xs: seq<Id>, gone: set<Id>)
    ensures forall x :: x in Drop(xs, gone) <==> x in xs && x !in gone
  {
    forall x ensures x in Drop(xs, gone) <==> x in xs && x !in gone {
      assert x in Elements(Drop(xs, gone)) <==> x in Elements(xs) - gone;
    }
  }

  lemma WithoutKeepsBallot(s: State, gone: set<Id>, status: Status)
    requires Wf(s) && MayGo(s, gone, status) && Ballot(s)
    ensures Ballot(Without(s, gone, status))
  {
    hide Drop, ActiveIds, Shape, PlayersMove;
    var t := Without(s, gone, status);
    WithoutKeepsShape(s, gone, status);
    if InVote(s.phase) {
      DropDistinct(s.candidates, gone);
      DropMembers(s.candidates, gone);
      ActiveIdsDrop(s.setup.order, s.players, t.players, gone);
      forall v <- t.votes ensures VoteOk(t, v) {
        assert VoteOk(s, v);
      }
    }
  }

  lemma SeatsArePlayers(s: State)
    requires Wf(s)
    ensures s.setup.impostor in s.players && Holder(s) in s.players
  {
    assert s.setup.impostor in Elements(s.setup.order) && Holder(s) in Elements(s.setup.order);
  }

  /** What `removeAll` has in hand when it comes to judge. */
  ghost predicate Bereft(s: State, impostorGone: bool, holderGone: bool) {
    && Live(s) && Core(s) && Ballot(s) && s.silentVotes < MAX_SILENT_VOTES
    && OnTurn(s, Reach(s))
    && s.players[s.setup.impostor].status != Eliminated
    && (impostorGone <==> s.players[s.setup.impostor].status != Active)
    && (holderGone <==> s.phase == Hints && Holder(s) !in Actives(s.players))
    && (s.phase == Hints && !holderGone ==> TurnClock(s))
  }

  lemma ActivesSplit(s: State)
    requires s.setup.impostor in Actives(s.players)
    ensures |Actives(s.players)| == |ActiveCitizens(s)| + 1
  {
    assert Actives(s.players) == ActiveCitizens(s) + {s.setup.impostor};
  }

  lemma BereftIsConsistent(s: State, impostorGone: bool, holderGone: bool)
    requires Bereft(s, impostorGone, holderGone) && !impostorGone
    requires s.phase == ImpostorGuess || TwoSides(s.setup, s.players)
    ensures !holderGone ==> Consistent(s)
    ensures s.phase != ImpostorGuess ==> Playing(s)
  {
    hide Board, Strikes, Filed, TurnsDone, Ballot, Elements, Distinct;
    SeatsArePlayers(s);
  }

  lemma JudgeInv(s: State, impostorGone: bool, holderGone: bool, at: Time)
    requires Bereft(s, impostorGone, holderGone)
    ensures Inv(Judge(s, impostorGone, holderGone, at))
  {
    hide Board, Strikes, Filed, TurnsDone, PlayersMove, Inv, StartTurn, MaybeAdvance, End, Ballot, Changes, TurnClock,
      Elements, ValidSetup, Consistent, Playing;
    SeatsArePlayers(s);
    if impostorGone {
      EndInv(s, Citizens, ImpostorGone);
    } else if s.phase == ImpostorGuess {
      BereftIsConsistent(s, impostorGone, holderGone);
      UnchangedInv(s);
    } else if ActiveImpostors(s) >= |ActiveCitizens(s)| {
      EndInv(s, Impostor, ImpostorParity);
    } else {
      JudgeGoesOnInv(s, impostorGone, holderGone, at);
    }
  }

  /** ... and where both sides are left, the match goes on. */
  lemma JudgeGoesOnInv(s: State, impostorGone: bool, holderGone: bool, at: Time)
    requires Bereft(s, impostorGone, holderGone)
    requires !impostorGone && s.phase != ImpostorGuess && ActiveImpostors(s) < |ActiveCitizens(s)|
    ensures Inv(Judge(s, impostorGone, holderGone, at))
  {
    hide Board, Strikes, Filed, TurnsDone, PlayersMove, Inv, StartTurn, MaybeAdvance, End, Ballot, Changes, TurnClock,
      Elements, ValidSetup, Consistent, Playing;
    SeatsArePlayers(s);
    ActivesSplit(s);
    BereftIsConsistent(s, impostorGone, holderGone);
    if s.phase == RoleReveal || s.phase == EliminationReveal || InVote(s.phase) {
      MaybeAdvanceInv(s, at);
    } else if holderGone {
      SkipSeats(s.setup.order, s.players, s.hints, s.round, s.turn, s.turn + 1);
      StartTurnInv(s, s.turn + 1, at);
    } else {
      UnchangedInv(s);
    }
  }

  /** Outside a vote there is nothing to linger. */
  lemma UnchangedInv(s: State)
    requires Consistent(s) && !InVote(s.phase)
    ensures Inv(s)
  {
  }

  lemma BereftAfter(s: State, gone: set<Id>, status: Status)
    requires Live(s) && MayGo(s, gone, status) && Steady(s)
    requires Strikes(Without(s, gone, status).players)
    ensures Bereft(Without(s, gone, status), s.setup.impostor in gone, s.phase == Hints && Holder(s) in gone)
  {
    hide Board, Strikes, Filed, TurnsDone, Ballot, Drop, PlayersMove, Verdict, Distinct;
    var t := Without(s, gone, status);
    WithoutKeepsShape(s, gone, status);
    WithoutKeepsBallot(s, gone, status);
    TurnsDoneFewer(s.setup.order, s.players, t.players, s.hints, s.round, Reach(s));
  }

  lemma RemoveAllInv(s: State, gone: set<Id>, status: Status, at: Time)
    requires Live(s) && MayGo(s, gone, status) && Steady(s)
    requires Strikes(Without(s, gone, status).players)
    ensures Inv(RemoveAll(s, gone, status, at))
  {
    hide Bereft, Without, Judge, Inv, Steady, Strikes, Changes, PlayersMove;
    WithoutKeepsShape(s, gone, status);
    BereftAfter(s, gone, status);
    JudgeInv(Without(s, gone, status), s.setup.impostor in gone, s.phase == Hints && Holder(s) in gone, at);
  }

  // ----- the board -----

  lemma {:induction false} SeatOf(order: seq<Id>, k: nat)
    requires Distinct(order) && k < |order|
    ensures Seat(order, order[k]) == k
  {
    if k > 0 {
      SeatOf(order[1..], k - 1);
    }
  }

  /** A new entry by the player in seat `reach` keeps the board in order. */
  lemma BoardAdd(u: Setup, players: map<Id, Player>, hints: seq<Hint>, round: nat, reach: nat, h: Hint)
    requires ValidSetup(u) && Board(u, hints, round) && TurnsDone(u.order, players, hints, round, reach)
    requires reach < |u.order| && h.player == u.order[reach] && h.round == round && EntryOk(u, h, round)
    requires !h.missing ==> forall k :: 0 <= k < |hints| && !hints[k].missing ==>
      !Words.SameHint(u.policy.alphabet, h.text, hints[k].text)
    ensures Board(u, hints + [h], round)
    ensures TurnsDone(u.order, players, hints + [h], round, reach + 1)
  {
    hide ValidSetup, HintAllowed, Words.SameHint, Actives, Seat;
    var more := hints + [h];
    assert Seat(u.order, h.player) == reach by { DistinctOrder(u); SeatOf(u.order, reach); }
    forall i, j | 0 <= i < j < |more| ensures EntriesOrdered(u, more[i], more[j]) {
      if j == |hints| {
        assert EntryOk(u, hints[i], round);
      } else {
        assert EntriesOrdered(u, hints[i], hints[j]);
      }
    }
    forall k | 0 <= k < reach + 1 && k < |u.order| && u.order[k] in Actives(players)
      ensures HasEntry(more, round, u.order[k])
    {
      if k < reach {
        var e :| 0 <= e < |hints| && hints[e].player == u.order[k] && hints[e].round == round;
        assert more[e] == hints[e];
      } else {
        assert more[|hints|] == h;
      }
    }
  }

  lemma DistinctOrder(u: Setup)
    requires ValidSetup(u)
    ensures Distinct(u.order)
  {
  }

  // ----- timers -----

  lemma {:induction false} ActiveIdsDistinct(order: seq<Id>, players: map<Id, Player>)
    requires Distinct(order)
    ensures Distinct(ActiveIds(order, players))
  {
    if order != [] {
      var rest := ActiveIds(order[1..], players);
      ActiveIdsDistinct(order[1..], players);
      ActiveIdsElements(order[1..], players);
      assert forall x :: x in rest ==> x in Elements(rest);
      DistinctPrepend(order[0], rest);
      assert [] + rest == rest;
    }
  }

  lemma ConsistentIsPlaying(s: State)
    requires Live(s) && Consistent(s)
    ensures Core(s) && OnTurn(s, Reach(s)) && s.silentVotes < MAX_SILENT_VOTES
    ensures s.players[s.setup.impostor].status == Active
    ensures s.phase != ImpostorGuess ==> Playing(s)
  {
    hide Board, Strikes, Filed, TurnsDone;
  }

  lemma ExpireHintsInv(s: State, at: Time)
    requires Live(s) && s.phase == Hints && Playing(s) && OnTurn(s, s.turn)
    ensures Inv(Expire(s, at))
  {
    hide Board, Strikes, Filed, TurnsDone, PlayersMove, Inv, StartTurn, Changes, Elements, EntryOk;
    var h := MissingHint(s);
    HolderEntryOk(s);
    BoardAdd(s.setup, s.players, s.hints, s.round, s.turn, h);
    StartTurnInv(s.(hints := s.hints + [h], pending := map[]), s.turn + 1, at);
  }

  lemma ExpireInv(s: State, at: Time)
    requires Live(s) && Consistent(s)
    ensures Inv(Expire(s, at))
  {
    hide Playing, Core, OnTurn, PlayersMove, Inv, StartTurn, Tally, StartRound, StartVoting, End, ActiveIds, Changes,
      Elements, Consistent;
    ConsistentIsPlaying(s);
    match s.phase
    case RoleReveal => StartTurnInv(s, 0, at);
    case Hints => ExpireHintsInv(s, at);
    case HintBreak => StartTurnInv(s, s.turn + 1, at);
    case PreVoting =>
      ActiveIdsElements(s.setup.order, s.players);
      ActiveIdsDistinct(s.setup.order, s.players);
      assert Elements(ActiveIds(s.setup.order, s.players)) == Elements(s.setup.order) * Actives(s.players);
      StartVotingInv(s, Voting, ActiveIds(s.setup.order, s.players), at, s.setup.cfg.vote);
    case Voting => TallyInv(s, at);
    case RunoffVoting => TallyInv(s, at);
    case EliminationReveal => StartRoundInv(s, at);
    case ImpostorGuess => EndGuessInv(s);
  }

  lemma EndGuessInv(s: State)
    requires Live(s) && Core(s) && s.players[s.setup.impostor].status == Active
    ensures Inv(End(s, Citizens, ImpostorGuessTimeout))
    ensures Inv(End(s, Citizens, ImpostorGuessWrong))
    ensures Inv(End(s, Impostor, ImpostorGuessedWord))
  {
    hide Inv, Board, Strikes, Filed, End;
    EndInv(s, Citizens, ImpostorGuessTimeout);
    EndInv(s, Citizens, ImpostorGuessWrong);
    EndInv(s, Impostor, ImpostorGuessedWord);
  }

  lemma HolderEntryOk(s: State)
    requires Wf(s) && Board(s.setup, s.hints, s.round)
    ensures EntryOk(s.setup, MissingHint(s), s.round)
  {
  }

  /** Players may change in anything but status, and the holder of a turn in presence. */
  lemma PlayersTouched(s: State, players: map<Id, Player>)
    requires Steady(s) && players.Keys == s.players.Keys
    requires forall id <- s.players :: players[id].status == s.players[id].status
    requires s.phase == Hints ==> players[Holder(s)].connected == s.players[Holder(s)].connected
    ensures Steady(s.(players := players))
    ensures Actives(players) == Actives(s.players)
  {
    hide Board, Filed, TurnsDone, ActiveIds, Distinct, Elements, Ballot, Verdict;
    assert Actives(players) == Actives(s.players);
    var t := s.(players := players);
    SeatsArePlayers(s);
    if s.phase == Ended {
      VerdictTouched(s, players);
    } else {
      TurnsDoneFewer(s.setup.order, s.players, players, s.hints, s.round, Reach(s));
      assert Verdict(t) by { NoVerdictYet(t); }
    }
    BallotTouched(s, players);
  }

  lemma NoVerdictYet(s: State)
    requires Live(s)
    ensures Verdict(s)
  {
  }

  lemma VerdictTouched(s: State, players: map<Id, Player>)
    requires Wf(s) && Wf(s.(players := players)) && Verdict(s) && s.phase == Ended
    requires players.Keys == s.players.Keys && Actives(players) == Actives(s.players)
    requires forall id <- s.players :: players[id].status == s.players[id].status
    ensures Verdict(s.(players := players))
  {
    var t, r := s.(players := players), s.result.value;
    assert ActiveCitizens(t) == ActiveCitizens(s);
    forall id <- t.players
      ensures r.outcomes[id] == OutcomeOf(t.players[id], id == t.setup.impostor, r.winner, r.reason)
    {
      assert t.players[id].status == s.players[id].status;
    }
  }

  lemma BallotTouched(s: State, players: map<Id, Player>)
    requires Ballot(s) && Actives(players) == Actives(s.players)
    ensures Ballot(s.(players := players))
  {
    hide ActiveIds, Distinct;
    ActiveIdsSame(s.setup.order, s.players, players);
    forall v <- s.votes | InVote(s.phase) ensures VoteOk(s.(players := players), v) {
      assert VoteOk(s, v);
    }
  }

  lemma {:induction false} ActiveIdsSame(order: seq<Id>, p: map<Id, Player>, q: map<Id, Player>)
    requires Actives(p) == Actives(q)
    ensures ActiveIds(order, p) == ActiveIds(order, q)
  {
    if order != [] { ActiveIdsSame(order[1..], p, q); }
  }

  lemma StrikesAfter(s: State, at: Time)
    requires Wf(s) && Strikes(s.players)
    ensures Strikes(Without(Strike(s, at), OutAt(s, at), Removed).players)
    ensures OutAt(s, at) == {} ==> Strikes(Strike(s, at).players)
  {
    hide Shape, PlayersMove;
    if OutAt(s, at) == {} {
      forall id <- s.players ensures StrikesOk(Strike(s, at).players[id]) {
        assert id !in OutAt(s, at);
        assert StrikesOk(s.players[id]);
      }
    }
  }

  lemma CountStrikesInv(s: State, at: Time)
    requires Live(s) && Inv(s)
    ensures Inv(CountStrikes(s, at))
  {
    hide Board, Strikes, Filed, TurnsDone, PlayersMove, RemoveAll, Ballot, Strike, OutAt, Verdict, TurnClock,
      AllConnectedVoted;
    StrikeKeepsShape(s, at);
    StrikesAfter(s, at);
    StrikeTouches(s, at);
    PlayersTouched(s, Strike(s, at).players);
    if OutAt(s, at) == {} {
      assert NotLingering(Strike(s, at)) by { SameLingering(s, Strike(s, at).players); }
    } else {
      RemoveAllInv(Strike(s, at), OutAt(s, at), Removed, at);
    }
  }

  lemma StrikeTouches(s: State, at: Time)
    ensures var t := Strike(s, at); t == s.(players := t.players) && t.players.Keys == s.players.Keys
    ensures forall id <- s.players :: Strike(s, at).players[id].status == s.players[id].status
    ensures forall id <- s.players :: Strike(s, at).players[id].connected == s.players[id].connected
  {
  }

  lemma SameLingering(s: State, players: map<Id, Player>)
    requires players.Keys == s.players.Keys
    requires forall id <- s.players :: players[id].status == s.players[id].status
    requires forall id <- s.players :: players[id].connected == s.players[id].connected
    ensures NotLingering(s.(players := players)) <==> NotLingering(s)
  {
    assert Actives(players) == Actives(s.players);
    assert Voters(s.(players := players)) == Voters(s);
    assert ConnectedVoters(s.(players := players)) == ConnectedVoters(s);
  }

  /** Neither the version nor the board matters to a vote. */
  lemma SameVote(s: State, t: State)
    requires t == s.(version := t.version, hints := t.hints, pending := t.pending) && Ballot(s) && NotLingering(s)
    ensures Ballot(t) && NotLingering(t)
  {
    hide ActiveIds, Distinct;
    assert Voters(t) == Voters(s) && ConnectedVoters(t) == ConnectedVoters(s);
    forall v <- s.votes | InVote(s.phase) ensures VoteOk(t, v) {
      assert VoteOk(s, v);
    }
  }

  lemma VersionInv(s: State, version: nat)
    requires Inv(s)
    ensures Inv(s.(version := version))
  {
    hide Board, Strikes, Filed, TurnsDone, Ballot, NotLingering, ValidSetup;
    SameVote(s, s.(version := version));
  }

  lemma StepInv(s: State)
    requires Live(s) && Inv(s)
    ensures Inv(Step(s))
  {
    hide Consistent, CountStrikes, Expire, Inv, Changes, PlayersMove, Shape, EarliestStrike;
    match NextTimer(s)
    case StrikeDue(at) =>
      CountStrikesInv(s, at);
      VersionInv(CountStrikes(s, at), s.version + 1);
    case PhaseDue(at) =>
      assert Consistent(s) by { InvIsConsistent(s); }
      ExpireInv(s, at);
      VersionInv(Expire(s, at), s.version + 1);
  }

  lemma InvIsConsistent(s: State)
    requires Inv(s)
    ensures Wf(s) && Consistent(s) && Steady(s) && Strikes(s.players) && NotLingering(s)
  {
  }

  /** Ticking keeps the invariant, however many timers have expired. */
  lemma {:induction false} TickInv(s: State, now: Time)
    requires Wf(s) && Inv(s)
    ensures Inv(Tick(s, now))
    decreases PendingStrikes(s.players), Overdue(s, now)
  {
    hide Inv, Step;
    if Due(s, now) {
      StepProgress(s, now);
      StepInv(s);
      TickInv(Step(s), now);
    }
  }

  // ----- commands -----

  lemma BumpInv(s: State)
    requires Inv(s)
    ensures Inv(Bump(s))
  {
    hide Inv;
    VersionInv(s, s.version + 1);
  }

  /** One player changes in anything but status and, for the holder of the turn, presence. */
  lemma OnePlayerTouched(s: State, id: Id, p: Player)
    requires Consistent(s) && id in s.players && p.status == s.players[id].status && StrikesOk(p)
    requires s.phase == Hints && Holder(s) == id ==> p.connected == s.players[id].connected
    ensures Consistent(s.(players := s.players[id := p]))
  {
    hide Steady;
    assert Wf(s) && Steady(s) by { SteadyIsWf(s); }
    PlayersTouched(s, s.players[id := p]);
  }

  lemma SteadyIsWf(s: State)
    requires Steady(s)
    ensures Wf(s)
  {
  }

  lemma ConfirmTouched(s: State, id: Id)
    requires Consistent(s) && id in s.players
    ensures Wf(Confirm(s, id)) && Consistent(Confirm(s, id))
  {
    hide Steady;
    assert StrikesOk(s.players[id]);
    OnePlayerTouched(s, id, s.players[id].(confirmed := true));
    SteadyIsWf(Confirm(s, id));
  }

  lemma ActConfirmRoleInv(s: State, id: Id, now: Time)
    requires Wf(s) && Inv(s)
    ensures Inv(ActConfirmRole(s, id, now).0)
  {
    hide Consistent, MaybeAdvance, Inv, Changes, Steady, StrikesOk;
    InvIsConsistent(s);
    if ActivePlayer(s, id) == Ok && s.phase == RoleReveal && !s.players[id].confirmed {
      ConfirmTouched(s, id);
      MaybeAdvanceInv(Confirm(s, id), now);
      BumpInv(MaybeAdvance(Confirm(s, id), now));
    }
  }

  lemma ActContinueInv(s: State, id: Id, now: Time)
    requires Wf(s) && Inv(s)
    ensures Inv(ActContinueAfterElimination(s, id, now).0)
  {
    hide Consistent, MaybeAdvance, Inv, Changes, Steady, StrikesOk;
    InvIsConsistent(s);
    if s.phase == EliminationReveal && Watcher(s, id) == Ok && !s.players[id].confirmed {
      ConfirmTouched(s, id);
      MaybeAdvanceInv(Confirm(s, id), now);
      BumpInv(MaybeAdvance(Confirm(s, id), now));
    }
  }

  lemma ActSubmitHintInv(s: State, id: Id, text: string, now: Time)
    requires Wf(s) && Inv(s)
    ensures Inv(ActSubmitHint(s, id, text, now).0)
  {
    hide Board, Strikes, Filed, TurnsDone, ActiveIds, PlayersMove, Tidy, Distinct, Words.SameHint,
      Words.ContainsSecret, Words.Normalize;
    var tidy := Tidy(s.setup.policy.alphabet, text);
    if HintVerdict(s, id, tidy) == Ok {
      var h := Hint(id, tidy, s.round, false, s.pending);
      SubmittedEntryOk(s, id, tidy);
      BoardAdd(s.setup, s.players, s.hints, s.round, s.turn, h);
      var t := s.(hints := s.hints + [h], pending := map[]);
      var r := SetPhase(t, HintBreak, now, s.setup.cfg.hintBreak);
      assert Inv(r);
      BumpInv(r);
    }
  }

  lemma SubmittedEntryOk(s: State, id: Id, text: string)
    requires Wf(s) && Board(s.setup, s.hints, s.round) && HintVerdict(s, id, text) == Ok
    ensures EntryOk(s.setup, Hint(id, text, s.round, false, s.pending), s.round)
  {
    hide Words.ContainsSecret, Words.Normalize;
  }

  /** Reactions do not matter to the order of the board. */
  lemma ReactedBoard(u: Setup, players: map<Id, Player>, hints: seq<Hint>, round: nat, reach: nat, a: nat,
    reactions: map<string, nat>)
    requires ValidSetup(u) && Board(u, hints, round) && a < |hints|
    ensures var more := hints[a := hints[a].(reactions := reactions)];
      Board(u, more, round) &&
        (TurnsDone(u.order, players, hints, round, reach) ==> TurnsDone(u.order, players, more, round, reach))
  {
    hide ValidSetup, Seat, Actives, Words.SameHint, Words.ContainsSecret, Words.Normalize;
    var more := hints[a := hints[a].(reactions := reactions)];
    forall i, j | 0 <= i < j < |more| ensures EntriesOrdered(u, more[i], more[j]) {
      assert EntriesOrdered(u, hints[i], hints[j]);
    }
    forall k | 0 <= k < |more| ensures EntryOk(u, more[k], round) {
      assert EntryOk(u, hints[k], round);
    }
    if TurnsDone(u.order, players, hints, round, reach) {
      forall k | 0 <= k < reach && k < |u.order| && u.order[k] in Actives(players)
        ensures HasEntry(more, round, u.order[k])
      {
        var e :| 0 <= e < |hints| && hints[e].player == u.order[k] && hints[e].round == round;
        assert more[e].player == u.order[k] && more[e].round == round;
      }
    }
  }

  lemma BoardTouched(s: State, hints: seq<Hint>, pending: map<string, nat>)
    requires Inv(s) && Board(s.setup, hints, s.round)
    requires s.phase != Ended ==> TurnsDone(s.setup.order, s.players, hints, s.round, Reach(s))
    ensures Inv(s.(hints := hints, pending := pending))
  {
    hide Board, Strikes, Filed, TurnsDone, Ballot, NotLingering, ValidSetup;
    SameVote(s, s.(hints := hints, pending := pending));
  }

  lemma ActReactInv(s: State, id: Id, k: int, reaction: string)
    requires Wf(s) && Inv(s)
    ensures Inv(ActReact(s, id, k, reaction).0)
  {
    hide Board, Strikes, Filed, TurnsDone, ActiveIds, Distinct, Ballot, TurnClock, Verdict, Teams, Land, NotLingering,
      Added;
    if Watcher(s, id) == Ok && s.phase != RoleReveal && s.phase != Ended &&
      s.setup.policy.validReaction.value(reaction) {
      match Land(s, k)
      case Nowhere =>
      case Wait =>
        var pending := Added(s.pending, reaction);
        BoardTouched(s, s.hints, pending);
        assert s.(pending := pending) == s.(hints := s.hints, pending := pending);
        BumpInv(s.(pending := pending));
      case On(a) =>
        var hints := s.hints[a := s.hints[a].(reactions := Added(s.hints[a].reactions, reaction))];
        ReactedBoard(s.setup, s.players, s.hints, s.round, Reach(s), a, Added(s.hints[a].reactions, reaction));
        BoardTouched(s, hints, s.pending);
        assert s.(hints := hints) == s.(hints := hints, pending := s.pending);
        BumpInv(s.(hints := hints));
    }
  }

  lemma ActVoteInv(s: State, id: Id, target: Id, now: Time)
    requires Wf(s) && Inv(s)
    ensures Inv(ActVote(s, id, target, now).0)
  {
    hide Board, Strikes, Filed, TurnsDone, ActiveIds, Distinct, MaybeAdvance, TurnClock, Verdict, Teams, NotLingering,
      Inv;
    InvIsConsistent(s);
    if ActivePlayer(s, id) == Ok && InVote(s.phase) && id != target && target in s.candidates {
      var t := s.(votes := s.votes[id := target], voteCast := true);
      TeamsSame(s, t);
      forall v <- t.votes ensures VoteOk(t, v) {
        if v != id { assert VoteOk(s, v); }
      }
      MaybeAdvanceInv(t, now);
      BumpInv(MaybeAdvance(t, now));
    }
  }

  lemma TeamsSame(s: State, t: State)
    requires Wf(s) && Wf(t) && Teams(s) && s.setup == t.setup && s.players == t.players && s.phase == t.phase
    requires s.phase != Ended
    ensures Teams(t) && Verdict(t)
  {
  }

  lemma ActSubmitGuessInv(s: State, id: Id, guess: string)
    requires Wf(s) && Inv(s)
    ensures Inv(ActSubmitGuess(s, id, guess).0)
  {
    hide Core, OnTurn, End, Consistent, Inv, Words.Accepts, Actives, Elements, ValidSetup, Aliases;
    InvIsConsistent(s);
    if ActivePlayer(s, id) == Ok && s.phase == ImpostorGuess && id == s.setup.impostor {
      ConsistentIsPlaying(s);
      EndGuessInv(s);
      BumpInv(End(s, Impostor, ImpostorGuessedWord));
      BumpInv(End(s, Citizens, ImpostorGuessWrong));
    }
  }

  lemma ActLeaveInv(s: State, id: Id, now: Time)
    requires Wf(s) && Inv(s)
    ensures Inv(ActLeave(s, id, now).0)
  {
    hide Steady, RemoveAll, Inv, Without;
    InvIsConsistent(s);
    if id in s.players && s.phase != Ended && s.players[id].Watching() {
      assert StrikesOk(s.players[id]);
      LeftStrikes(s, id);
      RemoveAllInv(s, {id}, Left, now);
      BumpInv(RemoveAll(s, {id}, Left, now));
    }
  }

  lemma LeftStrikes(s: State, id: Id)
    requires Strikes(s.players) && id in s.players && s.players[id].Watching()
    ensures Strikes(Without(s, {id}, Left).players)
  {
    var q := Without(s, {id}, Left).players;
    forall i <- q ensures StrikesOk(q[i]) {
      assert StrikesOk(s.players[i]);
    }
  }

  lemma ActDisconnectInv(s: State, id: Id, now: Time)
    requires Wf(s) && Inv(s)
    ensures Inv(ActDisconnect(s, id, now).0)
  {
    hide Consistent, MaybeAdvance, Inv, NotLingering, AwaitReconnect, Changes, Actives, Elements, ValidSetup, Dropped,
      Bump;
    InvIsConsistent(s);
    if Watcher(s, id) == Ok && s.players[id].connected {
      if s.phase == Hints && Holder(s) == id {
        HolderDropInv(s, now);
      } else {
        OtherDropConsistent(s, id, now);
        AfterDropInv(Dropped(s, id, now), now);
      }
    }
  }

  lemma HolderDropInv(s: State, now: Time)
    requires Wf(s) && Consistent(s) && s.phase == Hints && Holder(s) in s.players && s.players[Holder(s)].connected
    ensures Inv(Bump(AwaitReconnect(Dropped(s, Holder(s), now), now)))
  {
    hide Board, Strikes, Filed, TurnsDone, Ballot, Verdict, Teams, Inv, AwaitReconnect, Actives, Elements, ValidSetup;
    var q := Dropped(s, Holder(s), now).players[Holder(s)];
    HolderIsActive(s);
    DropStrikesOk(s, Holder(s), q);
    HolderAwayInv(s, q, now);
    BumpInv(AwaitReconnect(Dropped(s, Holder(s), now), now));
  }

  lemma OtherDropConsistent(s: State, id: Id, now: Time)
    requires Wf(s) && Consistent(s) && id in s.players && s.players[id].connected
    requires !(s.phase == Hints && Holder(s) == id)
    ensures Consistent(Dropped(s, id, now))
  {
    hide Steady, Consistent, Actives, Elements, ValidSetup;
    var q := Dropped(s, id, now).players[id];
    DropStrikesOk(s, id, q);
    OnePlayerTouched(s, id, q);
    assert Dropped(s, id, now) == s.(players := s.players[id := q]);
  }

  lemma DropStrikesOk(s: State, id: Id, q: Player)
    requires Consistent(s) && id in s.players
    requires q == s.players[id].(connected := false, strikeAt := q.strikeAt)
    requires s.players[id].status != Active ==> q.strikeAt == s.players[id].strikeAt
    ensures StrikesOk(q)
  {
    hide Steady;
    assert StrikesOk(s.players[id]);
  }

  lemma AfterDropInv(t: State, now: Time)
    requires Wf(t) && Consistent(t)
    ensures t.phase == RoleReveal || t.phase == EliminationReveal || InVote(t.phase) ==> Inv(Bump(MaybeAdvance(t, now)))
    ensures !InVote(t.phase) ==> Inv(Bump(t))
  {
    hide Consistent, MaybeAdvance, Inv, NotLingering, Wf;
    if t.phase == RoleReveal || t.phase == EliminationReveal || InVote(t.phase) {
      MaybeAdvanceInv(t, now);
      BumpInv(MaybeAdvance(t, now));
    }
    if !InVote(t.phase) {
      UnchangedInv(t);
      BumpInv(t);
    }
  }

  /** While a turn is being played, its holder may go away or come back on the turn's own clock. */
  lemma HolderTouched(s: State, p: Player, reconnecting: bool, deadline: Time)
    requires Consistent(s) && s.phase == Hints && p.status == Active && StrikesOk(p)
    requires reconnecting == !p.connected && deadline <= s.turnDeadline.value
    requires !reconnecting ==> deadline == s.turnDeadline.value
    ensures Inv(s.(players := s.players[Holder(s) := p], reconnecting := reconnecting, deadline := Some(deadline)))
  {
    hide Board, Strikes, Filed, TurnsDone, ActiveIds, Distinct;
    var players := s.players[Holder(s) := p];
    assert Actives(players) == Actives(s.players);
    TurnsDoneFewer(s.setup.order, s.players, players, s.hints, s.round, Reach(s));
    OneStrikesOk(s.players, Holder(s), p);
  }

  lemma OneStrikesOk(players: map<Id, Player>, id: Id, p: Player)
    requires Strikes(players) && StrikesOk(p)
    ensures Strikes(players[id := p])
  {
  }

  lemma HolderAwayInv(s: State, p: Player, now: Time)
    requires Consistent(s) && s.phase == Hints && p.status == s.players[Holder(s)].status && StrikesOk(p) &&
      !p.connected
    ensures Inv(AwaitReconnect(s.(players := s.players[Holder(s) := p]), now))
  {
    hide Board, Strikes, Filed, TurnsDone, ActiveIds, Distinct, Ballot, Verdict, Teams, Inv;
    var r := AwaitReconnect(s.(players := s.players[Holder(s) := p]), now);
    HolderTouched(s, p, true, r.deadline.value);
    assert r == s.(players := s.players[Holder(s) := p], reconnecting := true, deadline := r.deadline);
  }

  lemma ActReconnectInv(s: State, id: Id, now: Time)
    requires Wf(s) && Inv(s)
    ensures Inv(ActReconnect(s, id, now).0)
  {
    hide Steady, Consistent, MaybeAdvance, Inv, NotLingering, Changes, Actives, Elements;
    InvIsConsistent(s);
    if Watcher(s, id) == Ok && !s.players[id].connected {
      var q := s.players[id].(connected := true, strikeAt := None);
      assert StrikesOk(s.players[id]);
      assert StrikesOk(q);
      var t := Returned(s, id);
      if s.phase == Hints && s.players[id].status == Active && Holder(s) == id {
        HolderTouched(s, q, false, s.turnDeadline.value);
        var r := t.(reconnecting := false, deadline := s.turnDeadline);
        assert r == s.(players := s.players[Holder(s) := q], reconnecting := false,
          deadline := Some(s.turnDeadline.value));
        BumpInv(r);
      } else {
        if s.phase == Hints { HolderIsActive(s); }
        OnePlayerTouched(s, id, q);
        if InVote(s.phase) {
          MaybeAdvanceInv(t, now);
          BumpInv(MaybeAdvance(t, now));
        } else {
          UnchangedInv(t);
          BumpInv(t);
        }
      }
    }
  }

  lemma HolderIsActive(s: State)
    requires Steady(s) && s.phase == Hints
    ensures s.players[Holder(s)].status == Active
  {
  }

  /** Every command keeps the invariant. */
  lemma ActInv(s: State, now: Time, c: Command)
    requires Wf(s) && Inv(s)
    ensures Inv(Act(s, now, c).0)
  {
    hide Inv, ActConfirmRole, ActSubmitHint, ActReact, ActVote, ActSubmitGuess, ActContinueAfterElimination,
      ActDisconnect, ActReconnect, ActLeave;
    match c
    case ConfirmRole(id) => ActConfirmRoleInv(s, id, now);
    case SubmitHint(id, text) => ActSubmitHintInv(s, id, text, now);
    case React(id, k, reaction) => ActReactInv(s, id, k, reaction);
    case Vote(id, target) => ActVoteInv(s, id, target, now);
    case SubmitGuess(id, guess) => ActSubmitGuessInv(s, id, guess);
    case ContinueAfterElimination(id) => ActContinueInv(s, id, now);
    case Disconnect(id) => ActDisconnectInv(s, id, now);
    case Reconnect(id) => ActReconnectInv(s, id, now);
    case Leave(id) => ActLeaveInv(s, id, now);
  }

  lemma ApplyInv(s: State, now: Time, c: Command)
    requires Wf(s) && Inv(s)
    ensures Inv(Apply(s, now, c).0)
  {
    TickInv(s, now);
    ActInv(Tick(s, now), now, c);
  }

  /** Every run keeps the invariant. */
  lemma {:induction false} RunInv(s: State, events: seq<Event>)
    requires Wf(s) && Inv(s)
    ensures Inv(Run(s, events).0)
    decreases |events|
  {
    hide Inv, Tick, Act, Wf;
    if events != [] {
      match events[0]
      case Timer(at) =>
        TickInv(s, at);
        RunInv(Tick(s, at), events[1..]);
      case Call(at, c) =>
        ApplyInv(s, at, c);
        RunInv(Apply(s, at, c).0, events[1..]);
    }
  }
}
