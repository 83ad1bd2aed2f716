/**
 * What is answered to each command, exactly: when it is taken, the error of every case in which it is not,
 * and what it does.  `t` is always the match after the tick that leads the command.
 */
module MatchReplies {
  import opened Basics
  import Words
  import opened MatchTypes
  import opened MatchRules
  import opened MatchClock
  import opened MatchCommands
  import opened MatchInvariant
  import opened MatchKeeps
  import opened MatchOpening
  import opened MatchVotes
  import opened MatchPolls
  import opened MatchEffects

  /** Who may do what only players may: the answers to the others. */
  ghost predicate OnlyPlayers(t: State, id: Id, reply: Reply) {
    && (id !in t.players ==> reply == Err(UnknownPlayer))
    && (id in t.players && !Plays(t, id) ==> reply == Err(PlayerNotActive))
  }

  /** ... and what those who look on may do too. */
  ghost predicate OnlyThoseThere(t: State, id: Id, reply: Reply) {
    && (id !in t.players ==> reply == Err(UnknownPlayer))
    && (id in t.players && !Stays(t, id) ==> reply == Err(PlayerNotActive))
  }

  /** A vote is taken from every player, first or again, while a vote is open, for any other candidate. */
  lemma VoteIsTaken(s: State, now: Time, id: Id, target: Id)
    requires Wf(s)
    ensures var t, r := Tick(s, now), Apply(s, now, Vote(id, target));
      && (r.1 == Ok <==> Plays(t, id) && VoteOpen(t.phase) && id != target && target in t.candidates)
      && OnlyPlayers(t, id, r.1)
      && (Plays(t, id) && !VoteOpen(t.phase) ==> r.1 == Err(WrongPhase))
      && (Plays(t, id) && VoteOpen(t.phase) && id == target ==> r.1 == Err(SelfVote))
      && (Plays(t, id) && VoteOpen(t.phase) && id != target && target !in t.candidates ==>
            r.1 == Err(InvalidVoteTarget))
      && (r.1 != Ok ==> r.0 == t)
  {
    hide Tick, ValidSetup, Elements, Actives, MaybeAdvance;
  }

  /** It then is the voter's vote: in hand, or filed when it was the last one waited for. */
  lemma LastVoteReplacesTheOthers(s: State, now: Time, id: Id, target: Id)
    requires Wf(s) && Inv(s)
    ensures var t, r := Tick(s, now), Apply(s, now, Vote(id, target));
      r.1 == Ok ==>
        var votes := t.votes[id := target];
        || r.0 == t.(votes := votes, voteCast := true, version := r.0.version)
        || r.0.voteRounds == t.voteRounds + [votes]
  {
    hide Tick, Act, Inv, Wf, AllConnectedVoted, MatchVotes.Follows;
    TickInv(s, now);
    if Apply(s, now, Vote(id, target)).1 == Ok {
      VoteNeedsVote(Tick(s, now), now, id, target);
      CommandsCountTheVote(s, now, Vote(id, target));
    }
  }

  lemma VoteNeedsVote(s: State, now: Time, id: Id, target: Id)
    requires Wf(s) && Act(s, now, Vote(id, target)).1 == Ok
    ensures InVote(s.phase)
  {
    hide ValidSetup, Elements, Actives, MaybeAdvance;
  }

  /** In the first vote of a round every player may vote for every other. */
  lemma EveryOtherPlayerCanBeVoted(s: State, now: Time, id: Id, target: Id)
    requires Reachable(s) && Tick(s, now).phase == Voting
    requires Plays(Tick(s, now), id) && Plays(Tick(s, now), target) && id != target
    ensures Apply(s, now, Vote(id, target)).1 == Ok
  {
    hide Reachable, Tick, Act, Inv;
    ReachableInv(s);
    InvIsWf(s);
    TickInv(s, now);
    PlayersAreCandidates(Tick(s, now), target);
    VoteIsTaken(s, now, id, target);
  }

  lemma PlayersAreCandidates(s: State, id: Id)
    requires Inv(s) && s.phase == Voting && Plays(s, id)
    ensures id in s.candidates
  {
    hide Board, Strikes, Filed, TurnsDone, Verdict, Teams, ValidSetup, AllConnectedVoted, ActiveIds;
    ActiveIdsElements(s.setup.order, s.players);
    assert id in Elements(s.candidates);
  }

  // ----- the guess -----

  /** A guess is taken from the caught impostor alone; it wins exactly when it is the secret or an alias. */
  lemma GuessDecides(s: State, now: Time, id: Id, guess: string)
    requires Wf(s)
    ensures var t, r := Tick(s, now), Apply(s, now, SubmitGuess(id, guess));
      && (r.1 == Ok <==> Plays(t, id) && t.phase == ImpostorGuess && id == t.setup.impostor)
      && OnlyPlayers(t, id, r.1)
      && (Plays(t, id) && t.phase != ImpostorGuess ==> r.1 == Err(WrongPhase))
      && (Plays(t, id) && t.phase == ImpostorGuess && id != t.setup.impostor ==> r.1 == Err(NotImpostor))
      && (r.1 != Ok ==> r.0 == t)
      && (r.1 == Ok ==>
            && r.0.phase == Ended && r.0.result.Some?
            && if Words.Accepts(t.setup.policy.alphabet, guess, t.setup.secret, Aliases(t.setup))
               then r.0.result.value.winner == Impostor && r.0.result.value.reason == ImpostorGuessedWord
               else r.0.result.value.winner == Citizens && r.0.result.value.reason == ImpostorGuessWrong)
  {
    hide Tick, ValidSetup, Elements, Actives, Words.Accepts, Aliases;
  }

  /** The secret itself and every configured alias always win, however they are spelled. */
  lemma RightGuessWins(s: State, now: Time, guess: string, word: string)
    requires Wf(s)
    requires var t := Tick(s, now); t.phase == ImpostorGuess && Plays(t, t.setup.impostor)
    requires var u := Tick(s, now).setup;
      && (word == u.secret || word in Aliases(u))
      && Words.Normalize(u.policy.alphabet, guess) == Words.Normalize(u.policy.alphabet, word)
    ensures var r := Apply(s, now, SubmitGuess(Tick(s, now).setup.impostor, guess)).0;
      r.phase == Ended && r.result.Some? && r.result.value.winner == Impostor
  {
    hide Tick, Act, Wf, Words.Normalize, Aliases;
    GuessDecides(s, now, Tick(s, now).setup.impostor, guess);
    var u := Tick(s, now).setup;
    if word != u.secret { var k :| 0 <= k < |Aliases(u)| && Aliases(u)[k] == word; }
  }

  // ----- hints -----

  ghost predicate OnTurn(t: State, id: Id) {
    t.phase == Hints && t.turn < |t.setup.order| && t.setup.order[t.turn] == id && !t.reconnecting
  }

  /** A text fit for the board, whoever gives it. */
  ghost predicate Fit(t: State, text: string) {
    var p := t.setup.policy;
    && p.hintInappropriate.Some?
    && Words.Normalize(p.alphabet, text) != "" && text != ""
    && (forall c <- text :: !p.alphabet.isSpace(c))
    && |text| <= MAX_HINT_RUNES
    && !p.hintInappropriate.value(text)
  }

  ghost predicate OnTheBoard(t: State, text: string) {
    exists h :: h in t.hints && !h.missing && Words.SameHint(t.setup.policy.alphabet, text, h.text)
  }

  lemma RepeatsIsOnTheBoard(t: State, text: string)
    ensures RepeatsHint(t, text) <==> OnTheBoard(t, text)
  {
    hide Words.SameHint;
    if RepeatsHint(t, text) {
      var k :| 0 <= k < |t.hints| && !t.hints[k].missing &&
        Words.SameHint(t.setup.policy.alphabet, text, t.hints[k].text);
      assert t.hints[k] in t.hints;
    }
  }

  /**
   * A hint is taken from the player on turn, tidied: if it is fit, does not give the secret away, which is
   * asked of citizens only, and is not the same as a hint already given.
   */
  lemma HintIsTaken(s: State, now: Time, id: Id, text: string)
    requires Wf(s)
    ensures var t, r := Tick(s, now), Apply(s, now, SubmitHint(id, text));
      var x := Tidy(t.setup.policy.alphabet, text);
      var leaks := id != t.setup.impostor && Words.ContainsSecret(t.setup.policy.alphabet, x, t.setup.secret);
      && (r.1 == Ok <==> Plays(t, id) && OnTurn(t, id) && Fit(t, x) && !leaks && !OnTheBoard(t, x))
      && OnlyPlayers(t, id, r.1)
      && (Plays(t, id) && t.phase != Hints ==> r.1 == Err(WrongPhase))
      && (Plays(t, id) && t.phase == Hints && !OnTurn(t, id) ==> r.1 == Err(NotYourTurn))
      && (Plays(t, id) && OnTurn(t, id) && Fit(t, x) && leaks ==> r.1 == Err(HintContainsSecret))
      && (Plays(t, id) && OnTurn(t, id) && Fit(t, x) && !leaks && OnTheBoard(t, x) ==> r.1 == Err(HintDuplicate))
      && (r.1 != Ok ==> r.0 == t)
  {
    hide Tick, ValidSetup, Elements, Actives, Tidy, Words.Normalize, Words.ContainsSecret, RepeatsHint, OnTheBoard;
    var t := Tick(s, now);
    RepeatsIsOnTheBoard(t, Tidy(t.setup.policy.alphabet, text));
    PolicyIsComplete(t);
  }

  lemma PolicyIsComplete(s: State)
    requires Wf(s)
    ensures s.setup.policy.Complete()
  {
  }

  /** What a text that is not fit is answered: the first of its faults. */
  lemma UnfitHintIsRefused(s: State, now: Time, id: Id, text: string)
    requires Wf(s) && Plays(Tick(s, now), id) && OnTurn(Tick(s, now), id)
    ensures var t, r := Tick(s, now), Apply(s, now, SubmitHint(id, text));
      var ab := t.setup.policy.alphabet;
      var x := Tidy(ab, text);
      var empty, broken := Words.Normalize(ab, x) == "", exists c :: c in x && ab.isSpace(c);
      && (empty ==> r.1 == Err(HintEmpty))
      && (!empty && broken ==> r.1 == Err(HintNotOneWord))
      && (!empty && !broken && |x| > MAX_HINT_RUNES ==> r.1 == Err(HintTooLong))
      && (!empty && !broken && |x| <= MAX_HINT_RUNES && !Fit(t, x) ==> r.1 == Err(HintInappropriate))
  {
    hide Tick, ValidSetup, Elements, Actives, Tidy, Words.Normalize, Words.ContainsSecret, RepeatsHint;
    PolicyIsComplete(Tick(s, now));
    EmptyIsBlank(Tick(s, now).setup.policy.alphabet);
  }

  lemma EmptyIsBlank(ab: Words.Alphabet)
    ensures Words.Normalize(ab, "") == ""
  {
  }

  /** A hint that is taken stands on the board as the player's, with the reactions that waited, and is held. */
  lemma HintStandsOnTheBoard(s: State, now: Time, id: Id, text: string)
    requires Wf(s)
    ensures var t, r := Tick(s, now), Apply(s, now, SubmitHint(id, text));
      r.1 == Ok ==>
        var h := Hint(id, Tidy(t.setup.policy.alphabet, text), t.round, false, t.pending);
        r.0 == t.(hints := t.hints + [h], pending := map[], phase := HintBreak,
          deadline := Some(now + t.setup.cfg.hintBreak), version := t.version + 1)
  {
    hide Tick, Elements, Actives, Tidy, HintVerdict;
  }

  // ----- reactions -----

  /** A reaction is taken from everybody there, between role reveal and the end, for a hint it can go to. */
  lemma ReactionIsTaken(s: State, now: Time, id: Id, k: int, reaction: string)
    requires Wf(s)
    ensures var t, r := Tick(s, now), Apply(s, now, React(id, k, reaction));
      var open := t.phase != RoleReveal && t.phase != Ended;
      && t.setup.policy.validReaction.Some?
      && var valid := t.setup.policy.validReaction.value(reaction);
      && (r.1 == Ok <==> Stays(t, id) && open && valid && !Land(t, k).Nowhere?)
      && OnlyThoseThere(t, id, r.1)
      && (Stays(t, id) && !open ==> r.1 == Err(WrongPhase))
      && (Stays(t, id) && open && !valid ==> r.1 == Err(InvalidReaction))
      && (Stays(t, id) && open && valid && Land(t, k).Nowhere? ==> r.1 == Err(InvalidHint))
      && (r.1 != Ok ==> r.0 == t)
  {
    hide Tick, ValidSetup, Elements, Actives, Land, Added;
    PolicyIsComplete(Tick(s, now));
  }

  function Count(reactions: map<string, nat>, x: string): nat { if x in reactions then reactions[x] else 0 }

  /** `q` is `p` with one more of reaction `x`. */
  ghost predicate OneMore(p: map<string, nat>, q: map<string, nat>, x: string) {
    q.Keys == p.Keys + {x} && forall y <- q :: q[y] == Count(p, y) + if y == x then 1 else 0
  }

  /** A reaction that is taken is one more where it goes, on a hint or among those that wait, and nothing else. */
  lemma ReactionIsKept(s: State, now: Time, id: Id, k: int, reaction: string)
    requires Wf(s)
    ensures var t, r := Tick(s, now), Apply(s, now, React(id, k, reaction));
      r.1 == Ok ==>
        match Land(t, k)
        case Wait =>
          && r.0 == t.(pending := r.0.pending, version := t.version + 1)
          && OneMore(t.pending, r.0.pending, reaction)
        case On(a) =>
          && |r.0.hints| == |t.hints| && OneMore(t.hints[a].reactions, r.0.hints[a].reactions, reaction)
          && r.0 == t.(hints := t.hints[a := t.hints[a].(reactions := r.0.hints[a].reactions)],
                       version := t.version + 1)
        case Nowhere => false
  {
    hide Tick, Wf, Land, Added, OneMore, ActReact;
    var t := Tick(s, now);
    ReactionIsWritten(t, id, k, reaction);
    AddedIsOneMore(t.pending, reaction);
    if Land(t, k).On? { AddedIsOneMore(t.hints[Land(t, k).index].reactions, reaction); }
  }

  lemma ReactionIsWritten(t: State, id: Id, k: int, reaction: string)
    requires Wf(t)
    ensures var r := ActReact(t, id, k, reaction);
      r.1 == Ok ==>
        match Land(t, k)
        case Wait => r.0 == t.(pending := Added(t.pending, reaction), version := t.version + 1)
        case On(a) =>
          r.0 == t.(hints := t.hints[a := t.hints[a].(reactions := Added(t.hints[a].reactions, reaction))],
                    version := t.version + 1)
        case Nowhere => false
  {
    hide Land, Added, Wf;
  }

  lemma AddedIsOneMore(p: map<string, nat>, x: string)
    ensures OneMore(p, Added(p, x), x)
  {
  }

  // ----- confirmations -----

  /** A role is confirmed by players in role reveal; a second time changes nothing. */
  lemma RoleIsConfirmed(s: State, now: Time, id: Id)
    requires Wf(s)
    ensures var t, r := Tick(s, now), Apply(s, now, ConfirmRole(id));
      && (r.1 == Ok <==> Plays(t, id) && t.phase == RoleReveal)
      && OnlyPlayers(t, id, r.1)
      && (Plays(t, id) && t.phase != RoleReveal ==> r.1 == Err(WrongPhase))
      && (r.1 != Ok || t.players[id].confirmed ==> r.0 == t)
  {
    hide Tick, ValidSetup, Elements, Actives, MaybeAdvance;
  }

  /** The reveal of an elimination is confirmed by everybody there. */
  lemma EliminationIsConfirmed(s: State, now: Time, id: Id)
    requires Wf(s)
    ensures var t, r := Tick(s, now), Apply(s, now, ContinueAfterElimination(id));
      && (r.1 == Ok <==> Stays(t, id) && t.phase == EliminationReveal)
      && (t.phase != EliminationReveal ==> r.1 == Err(WrongPhase))
      && (t.phase == EliminationReveal ==> OnlyThoseThere(t, id, r.1))
      && (r.1 != Ok || t.players[id].confirmed ==> r.0 == t)
  {
    hide Tick, ValidSetup, Elements, Actives, MaybeAdvance;
  }

  // ----- presence -----

  /** Lines drop and return for everybody there, in whatever phase; a line that does not move changes nothing. */
  lemma LinesAreTaken(s: State, now: Time, id: Id)
    requires Wf(s)
    ensures var t, d, b := Tick(s, now), Apply(s, now, Disconnect(id)), Apply(s, now, Reconnect(id));
      && (d.1 == Ok <==> Stays(t, id)) && OnlyThoseThere(t, id, d.1)
      && (b.1 == Ok <==> Stays(t, id)) && OnlyThoseThere(t, id, b.1)
      && (d.1 != Ok || !t.players[id].connected ==> d.0 == t)
      && (b.1 != Ok || t.players[id].connected ==> b.0 == t)
  {
    hide Tick, ValidSetup, Elements, Actives, MaybeAdvance, AwaitReconnect, Changes;
  }

  /** Everybody known may leave; those already out, and everybody after the end, change nothing by it. */
  lemma ExitIsTaken(s: State, now: Time, id: Id)
    requires Wf(s)
    ensures var t, r := Tick(s, now), Apply(s, now, Leave(id));
      && r.1 == (if id in t.players then Ok else Err(UnknownPlayer))
      && (!Stays(t, id) || t.phase == Ended ==> r.0 == t)
      && (Stays(t, id) && t.phase != Ended ==> id in r.0.players && r.0.players[id].status == Left)
  {
    hide Tick, ValidSetup, Elements, Actives, RemoveAll;
    var t := Tick(s, now);
    if Stays(t, id) && t.phase != Ended { LeaverHasLeft(t, id, now); }
  }

  lemma LeaverHasLeft(s: State, id: Id, at: Time)
    requires Live(s) && Stays(s, id)
    ensures MayGo(s, {id}, Left) && id in RemoveAll(s, {id}, Left, at).players
    ensures RemoveAll(s, {id}, Left, at).players[id].status == Left
  {
    hide Judge, ValidSetup, Elements, Actives, Drop;
    WithoutKeepsShape(s, {id}, Left);
  }
}
