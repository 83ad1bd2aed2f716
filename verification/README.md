# Verified model of the Imposter server rules

The server plays a hidden-word party game: a match deals one impostor among four to eight players,
they give one-word hints in turn, vote, and go on until somebody has won.  This project models the
rules that decide such matches and proves what they promise.

- **Match.**  `Match.Game` is the game object, its fields updated in place.  `MatchRules`,
  `MatchClock` and `MatchCommands` say as functions on a value (`MatchTypes.State`) what each of its
  methods does, and every method of `Game` is proved to do exactly that.  The other `Match…` modules
  prove results about those functions: over every run of commands and timer ticks, for every reachable
  state, or for every input.
- **Room.**  `Rooms.Room` holds members, the host and the match being played; `RoomRules` is its
  specification and the `Room…` modules its results, over every sequence of calls on a room.
- **Words.**  The Hebrew word rules for repeated hints, hints that give the word away, and guesses.
- **ReplyCache, Limiter, Matchmaking.**  Three small stateful components, each a class proved against
  functions, with results about whole histories of calls.

Reading guide.  A `State` is *reachable* (`MatchOpening.Reachable`) when some `New`, some members marked
offline and some sequence of calls lead to it; `RoomReach.Reached` is the same for rooms.  `Tick`, `Act`
and `Apply` are a timer tick, a command after its leading tick, and a whole command.  Moments and
durations are integers in nanoseconds with `None` for Go's zero time, except in `Limiter`, where they are
reals in seconds.  The game's randomness is a parameter: any shuffle of the ids, any seat for the impostor.
Callers serialise their calls, as the server's lock does.

Where documents and code differ, the code is followed.  `docs/architecture.md:137` gives a player who
comes back in their own turn a new hint timer; the code resumes the clock the turn began with
(`MatchTurns.HintTurnWithinItsClock`, `MatchProgress.MatchNeverGoesBack`).  The reason
`impostor_not_caught` and, in every reachable match, `not_enough_players` are never given
(`MatchVotes.ResultExplainsTheEnding`).

## Model

| member | source | states |
|---|---|---|
| Match.Game.constructor | server/internal/game/game.go:301-320 | a new match is in role reveal at version 1 with everybody active, online and unconfirmed |
| Match.Game.New | server/internal/game/game.go:291-322 | a match is opened exactly for four to eight distinct non-empty ids, content, a complete policy and positive durations; every refusal is the one setup error |
| Match.Game.Deal | server/internal/game/game.go:310-315 | the players are dealt in exactly when no id is empty or repeated |
| Match.Game.MarkOffline | server/internal/game/game.go:397-407 | only a fresh match lets a known player be marked offline; nothing else changes |
| Match.Game.NextDeadline | server/internal/game/game.go:375-390 | the earliest of the phase timer and the strikes of active players, a strike winning a tie |
| Match.Game.Deadline | server/internal/game/game.go:336-339 | the moment of the next timer, none once the match is over |
| Match.Game.Tick | server/internal/game/game.go:343-370 | every timer that has passed runs in order, each at its own moment, until none is left |
| Match.Game.Fire | server/internal/game/game.go:344-369 | one round of the loop: the next timer runs if it has passed |
| Match.Game.CountStrikes | server/internal/game/game.go:350-365 | all strikes of the moment count, then all third strikes are removed together |
| Match.Game.Strikes | server/internal/game/game.go:351-361 | exactly the drops due at the moment become strikes; returned are exactly those at their third |
| Match.Game.ConfirmRole | server/internal/game/game.go:409-424 | tick, then the first confirmation of an active player in role reveal counts and may start the round |
| Match.Game.SubmitHint | server/internal/game/game.go:426-472 | tick, then a hint that passes every check goes on the board with the waiting reactions and is held |
| Match.Game.CheckHint | server/internal/game/game.go:428-460 | the checks of a hint, in order, each with its own error |
| Match.Game.React | server/internal/game/game.go:476-523 | tick, then a valid reaction waits, lands on a hint, or is refused |
| Match.Game.LastGiven | server/internal/game/game.go:496-498 | the walk back over missing hints of one round |
| Match.Game.Vote | server/internal/game/game.go:526-545 | tick, then an active player's vote for another candidate replaces their last and may close the vote |
| Match.Game.SubmitGuess | server/internal/game/game.go:547-569 | tick, then the impostor's one guess ends the match for the impostor or for the citizens |
| Match.Game.ContinueAfterElimination | server/internal/game/game.go:971-986 | tick, then a watcher's confirmation counts and may start the next round |
| Match.Game.Disconnect | server/internal/game/game.go:571-592 | tick, then a connected watcher goes offline; an active one's drop is timed, and a turn or phase that waited on them moves on |
| Match.Game.Reconnect | server/internal/game/game.go:596-615 | tick, then an offline watcher is back, the drop is forgotten, and a waiting turn resumes its own clock |
| Match.Game.Leave | server/internal/game/game.go:619-631 | tick, then somebody still in a running match is out of it |
| Match.Game.Do | server/internal/game/game.go:409-631 | any of the nine commands is a tick followed by that command |
| Match.Game.VoteCounts | server/internal/game/game.go:668-675 | while a vote runs, how many may vote and how many have |
| Match.Game.Expire | server/internal/game/game.go:744-767 | what each phase does when its timer runs out |
| Match.Game.ResetAcks | server/internal/game/game.go:769-773 | nobody has confirmed; nothing else about anybody changes |
| Match.Game.MaybeAdvance | server/internal/game/game.go:778-795 | a phase everybody connected is done with moves on |
| Match.Game.AllConnectedAcked | server/internal/game/game.go:805-819 | whether every connected player asked has confirmed |
| Match.Game.AllConnectedVoted | server/internal/game/game.go:826-838 | whether somebody connected can vote and all who can have |
| Match.Game.NextActive | server/internal/game/game.go:849-854 | the first active seat from one on |
| Match.Game.StartTurn | server/internal/game/game.go:856-870 | the next active player has the turn and its clock, or the vote is near when nobody is left |
| Match.Game.Tally | server/internal/game/game.go:891-950 | votes and abstentions are filed, silence is noted, and the leaders decide |
| Match.Game.FileVotes | server/internal/game/game.go:898-918 | the bookkeeping of a tally, and the number of votes for every candidate |
| Match.Game.CountVotes | server/internal/game/game.go:898-903 | the copied votes, and for every candidate exactly how many voted so |
| Match.Game.PickTop | server/internal/game/game.go:920-929 | the candidates with the most votes, in order, and how many those are |
| Match.Game.Eliminate | server/internal/game/game.go:954-967 | a citizen is voted out, and the match ends if that leaves the impostor level |
| Match.Game.HasHintThisRound | server/internal/game/game.go:999-1006 | whether the board has an entry of this round |
| Match.Game.StartRound | server/internal/game/game.go:1008-1016 | the next round begins without votes, candidates or waiting reactions |
| Match.Game.RemoveAll | server/internal/game/game.go:1022-1058 | the given players are out, with all votes by and for them, before the match is judged once |
| Match.Game.Judge | server/internal/game/game.go:1035-1057 | what the loss of players means for the match |
| Match.Game.End | server/internal/game/game.go:1074-1108 | the first ending is the ending: result, outcomes, no deadline |
| Match.Game.Outcomes | server/internal/game/game.go:1078-1096 | win, loss or nothing for every player |
| Match.Game.ActiveIDs | server/internal/game/game.go:1110-1118 | exactly the active players, each once, in turn order |
| Match.Game.CitizensAndImpostors | server/internal/game/game.go:725-734 | how many citizens and impostors are active |
| MatchRules.StartTurn | server/internal/game/game.go:856-870 | the turn goes to the first active seat with its whole clock, or the pause before the vote begins; the new deadline lies ahead |
| MatchRules.Drop | server/internal/game/game.go:1032 | dropping candidates leaves exactly those not gone |
| MatchRules.ActiveIdsElements | server/internal/game/game.go:1110-1118 | the listed players are exactly the seated and active ones |
| MatchClock.EarliestStrike | server/internal/game/game.go:375-390 | the least pending strike of an active player, none if there is none |
| MatchClock.StepProgress | server/internal/game/game.go:343-370 | every timer that runs uses up a strike or moves the phase deadline on, so a tick ends |
| MatchClock.TickSettles | server/internal/game/game.go:336-370 | after a tick the deadline is none or in the future |
| MatchClock.TickBeforeDeadline | server/internal/game/game.go:336-370 | before the deadline a tick changes nothing |
| MatchClock.TickAtDeadline | server/internal/game/game.go:336-370 | at the deadline a tick raises the version |
| MatchClock.TickComposes | server/internal/game/game.go:341-370 | ticking at t1 and then at t2 is ticking at t2, version included |
| MatchTimes.NextTimerIsEarliest | server/internal/game/game.go:375-390 | the next timer is the earliest of the phase's and all strikes to come, a strike winning a tie, and there is none exactly after the end |
| MatchTimes.TimersGiveFullTime | server/internal/game/game.go:744-767 | whatever phase or turn a timer opens is given its own whole duration from the timer's moment, and no other clock moves |
| MatchTimes.CommandsGiveFullTime | server/internal/game/game.go:409-631 | ... and so is whatever a command opens, from the command; a turn whose holder drops waits for the sooner of its clock and the reconnect time, and has its own clock back when they return |
| MatchCommands.RunsAgree | server/internal/game/game.go:341-631 | matches that agree up to their timers give the same replies to the same commands, ticks or not |
| MatchCommands.TimerScheduleDoesNotMatter | server/internal/game/game.go:341-631 | two runs with the same commands and any ticks between them give the same replies and the same match |
| MatchOpening.New | server/internal/game/game.go:291-322 | exactly the playable arguments open a match, at version 1, in role reveal, of exactly the given ids |
| MatchOpening.NewInv | server/internal/game/game.go:291-322 | a match opens with the whole invariant |
| MatchOpening.ShuffleKeepsIds | server/internal/game/game.go:316 | any shuffle of distinct ids seats exactly those ids, once each |
| MatchOpening.OpensExactlyFor | server/internal/game/game.go:291-315 | four to eight distinct named players, content, a complete policy and durations are what it takes, nothing else |
| MatchOpening.OpensAsDealt | server/internal/game/game.go:301-321 | it opens in the shuffled order with the impostor at the drawn seat, everybody active, there and unconfirmed, role reveal on its whole time |
| MatchOpening.MarksOffline | server/internal/game/game.go:397-407 | a known player can be marked offline exactly before anything else has happened |
| MatchOpening.MarkOfflineInv | server/internal/game/game.go:397-407 | marking somebody offline before play keeps the invariant |
| MatchOpening.ReachableInv | server/internal/game/game.go:291-631 | every match that calls can lead to has the whole invariant |
| MatchOpening.ReachableGoesOn | server/internal/game/game.go:341-631 | what a call makes of a reachable match is reachable |
| MatchOpening.RunsAreReachable | server/internal/game/game.go:341-631 | ... and so is what any run makes of it |
| MatchFates.TickSpares | server/internal/game/game.go:343-370 | timers take nobody out of a match but by vote or by removal |
| MatchFates.JudgeSpares | server/internal/game/game.go:1035-1057 | judging the loss of some players only ever votes out others |
| MatchInvariant.StartTurnInv | server/internal/game/game.go:856-870 | passing the turn keeps board order, fairness, sides and clocks |
| MatchInvariant.StartRoundInv | server/internal/game/game.go:1008-1016 | a new round keeps the invariant |
| MatchInvariant.EliminateInv | server/internal/game/game.go:954-967 | voting a citizen out keeps two sides or ends the match for the impostor |
| MatchInvariant.TallyInv | server/internal/game/game.go:891-950 | a tally keeps the invariant |
| MatchInvariant.MaybeAdvanceInv | server/internal/game/game.go:778-795 | moving a phase on keeps the invariant, and no finished vote stays open |
| MatchKeeps.JudgeInv | server/internal/game/game.go:1035-1057 | judging the loss of players restores the invariant |
| MatchKeeps.RemoveAllInv | server/internal/game/game.go:1022-1058 | removing any players keeps the invariant |
| MatchKeeps.CountStrikesInv | server/internal/game/game.go:343-370 | a strike moment keeps the invariant |
| MatchKeeps.TickInv | server/internal/game/game.go:343-370 | a tick keeps the invariant |
| MatchKeeps.ActInv | server/internal/game/game.go:409-631 | each of the nine commands keeps the invariant |
| MatchKeeps.RunInv | server/internal/game/game.go:341-631 | every sequence of calls keeps the invariant |
| MatchReplies.VoteIsTaken | server/internal/game/game.go:526-545 | a vote is taken exactly from a player, first or again, while a vote is open, for another candidate; each failing case has its error and changes nothing |
| MatchReplies.LastVoteReplacesTheOthers | server/internal/game/game.go:539-544 | a vote that is taken is then the voter's vote, in hand or filed |
| MatchReplies.EveryOtherPlayerCanBeVoted | server/internal/game/game.go:526-545 | in the first vote of a round every player may vote for every other |
| MatchReplies.GuessDecides | server/internal/game/game.go:547-569 | a guess is taken exactly from the caught impostor; it ends the match, for the impostor if it is accepted and for the citizens if not |
| MatchReplies.RightGuessWins | server/internal/game/game.go:562-566 | the secret and every alias, however spelled, win for the impostor |
| MatchReplies.HintIsTaken | server/internal/game/game.go:426-460 | a hint is taken exactly from the player on turn, if it is fit, new, and from a citizen does not leak; the impostor's is never compared with the secret |
| MatchReplies.UnfitHintIsRefused | server/internal/game/game.go:436-446 | an unfit hint is refused for the first of its faults: empty, more than one word, too long, inappropriate |
| MatchReplies.HintStandsOnTheBoard | server/internal/game/game.go:461-471 | a hint that is taken stands on the board as the player's, tidied, with the reactions that waited, and is held; nothing else changes |
| MatchReplies.ReactionIsTaken | server/internal/game/game.go:476-523 | a reaction is taken exactly from those still there, between role reveal and the end, if it is valid and has a hint to go to |
| MatchReplies.ReactionIsKept | server/internal/game/game.go:499-521 | a reaction that is taken is one more where it goes and changes nothing else |
| MatchReplies.RoleIsConfirmed | server/internal/game/game.go:409-424 | a role is confirmed exactly by players in role reveal, and a second time changes nothing |
| MatchReplies.EliminationIsConfirmed | server/internal/game/game.go:971-986 | an elimination is confirmed exactly in its reveal by everybody still there, those voted out too |
| MatchReplies.LinesAreTaken | server/internal/game/game.go:571-615 | drops and returns are taken exactly from those still there, and a line that does not move changes nothing |
| MatchReplies.ExitIsTaken | server/internal/game/game.go:619-631 | everybody known may leave; who is still in a running match has then left it |
| MatchEffects.CommandsTouchPlayers | server/internal/game/game.go:409-631 | a command does to its own player what it is for and touches nobody else, but for a vote that eliminates and a new reveal that asks everybody anew |
| MatchEffects.TimersTouchPlayers | server/internal/game/game.go:343-370 | strikes count for those they are due for and remove at the third; a phase timer touches nobody, but for the same two |
| MatchReveals.RevealsEndWithTheLastConfirmation | server/internal/game/game.go:778-795 | role reveal and elimination reveal go on, to the first turn and to the next round, exactly when a confirmation, drop or exit leaves nobody connected unconfirmed |
| MatchReveals.RevealsEndWithTime | server/internal/game/game.go:744-767 | ... and with their timer; third strikes leave them to the others by the same rule |
| MatchPassing.TimersPassTheTurn | server/internal/game/game.go:744-767 | a turn that ran out leaves a missing hint and passes to the next player, a held hint is followed by the next turn, the pause opens the vote on all players in seating order, a guess not made loses |
| MatchPassing.StrikesPassTheTurn | server/internal/game/game.go:1022-1058 | between reveals and votes strikes pass the turn only by the loss of its holder |
| MatchPassing.CommandsPassTheTurn | server/internal/game/game.go:409-631 | ... and commands only by a hint, a guess or the exit of the holder |
| MatchPassing.ExitsEndDecidedMatches | server/internal/game/game.go:1035-1057 | outside a vote an exit ends a match exactly when the impostor is out, or at most one citizen is left and no guess runs |
| MatchPassing.StrikesEndDecidedMatches | server/internal/game/game.go:1035-1057 | ... and so do the third strikes of a moment |
| MatchProgress.MatchNeverGoesBack | server/internal/game/game.go:856-1016 | over any run rounds and stages never fall, and a turn's own clock never moves |
| MatchPath.TimersFollowTheWay | server/internal/game/game.go:744-767 | one timer takes a match along the graph of phases only, a round rises by one and only out of a vote or a reveal, and only a vote eliminates, never the impostor |
| MatchPath.CommandsFollowTheWay | server/internal/game/game.go:409-631 | ... and so does each of the nine commands |
| MatchProgress.VersionTracksChange | server/internal/game/game.go:343-631 | over any run an unchanged version means an unchanged match |
| MatchProgress.ResultIsFinal | server/internal/game/game.go:1074-1108 | after the end no calls change result, statuses, strikes, board or round |
| MatchProgress.StatusesOnlyMoveOn | server/internal/game/game.go:954-1058 | over any run a player goes from active to out, or from voted out to left, and never back |
| MatchLiveness.UnattendedMatchEnds | server/internal/game/game.go:343-370 | a running match left alone is over once a bound computed from its durations has passed after its timer |
| MatchLiveness.EveryRunCanBeLeftToEnd | server/internal/game/game.go:343-370 | the same after any run |
| MatchLiveness.TallyBound | server/internal/game/game.go:905-918 | two silent votes in a row end a match, so a tally never extends the time left unattended |
| MatchBoard.TurnsAreFair | server/internal/game/game.go:744-757 | when a vote is pending or open every active player has exactly one entry in the round |
| MatchBoard.BoardInTurnOrder | server/internal/game/game.go:849-870 | the board is in order of round and within a round strictly in turn order |
| MatchBoard.HintsAreFreshAndSafe | server/internal/game/game.go:440-464 | no two submitted hints of a match are the same hint, and no citizen's hint would win as a guess |
| MatchBoard.ReactionLandsOnNearestGivenHint | server/internal/game/game.go:490-521 | exactly when a reaction lands, waits or is refused, and that it lands on the nearest given hint of the round |
| MatchBoard.ReactionsAreConserved | server/internal/game/game.go:461-523 | over any run reactions rise by exactly one per accepted one and fall by exactly those still waiting whenever a round opens, and the board never loses any |
| MatchVotes.VotesAreHonest | server/internal/game/game.go:526-545 | every vote in hand is by an active player for another active candidate |
| MatchBallots.VotesInHandAreTheLastCast | server/internal/game/game.go:526-545 | after whatever calls, the votes in hand are the last accepted vote of everybody since the vote stood open without any, less those by or for players since gone |
| MatchVotes.VotesCastAtMostVoters | server/internal/game/game.go:668-675 | the votes shown never exceed the voters shown |
| MatchVotes.VoteNeverLingers | server/internal/game/game.go:826-838 | an open vote still waits for somebody connected, unless nobody connected can vote |
| MatchVotes.TopIsLeaders | server/internal/game/game.go:920-929 | the search finds exactly the candidates with votes that nobody beats |
| MatchVotes.TallyFollowsTheTable | server/internal/game/game.go:891-950 | in every consistent vote, votes and abstentions add up to the active players, and guess, elimination, runoff, second tie, empty round and abandonment follow exactly from the leaders |
| MatchPolls.CommandsCountTheVote | server/internal/game/game.go:526-631 | while a vote is open, a vote, a drop or a return closes it exactly when then every connected voter has voted, and it then ends as the table chose; an exit decides the match or leaves the vote to the others by the same rule; nothing else touches it |
| MatchPolls.TimersCountTheVote | server/internal/game/game.go:343-370 | a timer in a vote counts it as the table chose, or takes third strikes out of it, which decides the match or leaves the vote to the others |
| MatchPolls.RemovalDecides | server/internal/game/game.go:1022-1058 | with all of those gone out, the match is the citizens' without its impostor, the impostor's against at most one citizen, and a running guess goes on |
| MatchVotes.LiveMatchHasTwoSides | server/internal/game/game.go:954-967 | a running match has its impostor and, outside the guess, two citizens |
| MatchVotes.ResultExplainsTheEnding | server/internal/game/game.go:1074-1108 | an ending is never for too few players, is without winner exactly when abandoned after two empty votes, and agrees with who is left |
| MatchVotes.OutcomesFollowTheWinner | server/internal/game/game.go:1078-1096 | an impostor's win is one win, a citizens' win is a win for every citizen still in, an abandoned match counts for nobody |
| MatchTurns.CommandsSettle | server/internal/game/game.go:343-370 | a command leaves no expired timer behind |
| MatchTurns.HintTurnWithinItsClock | server/internal/game/game.go:571-615 | after any command or bare tick a hint turn has an active holder, waits exactly while they are offline, and lies within its own clock |
| MatchAbsence.StrikesAreLongAbsences | server/internal/game/game.go:571-615 | in every run a player has at most as many strikes as absences that lasted the reconnect time, exactly as many while active in a running match; so a removed player has been away three times that long, and an active one at most twice |
| MatchAbsence.TickPresence | server/internal/game/game.go:343-370 | for a player who stays active in a running match a tick counts exactly the strikes due by then, once |
| MatchAbsence.TickCounts | server/internal/game/game.go:343-370 | for anybody else too, a tick counts no strike but one due by then |
| MatchAbsence.TickRemoves | server/internal/game/game.go:343-370 | a tick removes only a player who is away, with two strikes and the third due by then |
| MatchAbsence.ActCounts | server/internal/game/game.go:409-631 | no command counts a strike |
| MatchAbsence.RemovedExactlyAtThree | server/internal/game/game.go:355-365 | a player is removed exactly at three strikes |
| MatchAbsence.ThirdStrikesGoTogether | server/internal/game/game.go:350-365 | everybody at a third strike is removed, and the ending is judged with all of them out: the citizens win without the impostor, the impostor against at most one citizen, unless a guess is running |
| Words.NormalizeWord | server/internal/game/words.go:61-69 | the loop and the final-letter pass give the normal form |
| Words.NormalizeIsKeepUnfold | server/internal/game/words.go:61-69 | final letters may be replaced character by character |
| Words.NormalizeAppend | server/internal/game/words.go:61-69 | the normal form of a concatenation is the concatenation of normal forms |
| Words.NormalizeIdempotent | server/internal/game/words.go:61-69 | normalising twice is normalising once |
| Words.SourceTableIsLawful | server/internal/game/words.go:25-38 | with the source's own replacement table, all the facts asked of it hold |
| Words.HebrewAndAsciiIsLawful | server/internal/game/words.go:25-69 | the alphabet of Hebrew and ASCII with that table has every fact asked of Unicode |
| Words.NormalizeIgnoresInsertion | server/internal/game/words.go:57-69 | a character that is neither letter nor digit never matters |
| Words.StartsWith | server/internal/game/words.go:110-122 | the scan finds the word behind at most three prefix letters, exactly when it stands there |
| Words.Contains | server/internal/game/words.go:124 | whether one word occurs inside another |
| Words.HintContainsSecret | server/internal/game/words.go:108-153 | the leak rules for the whole secret and for each of its words |
| Words.GuessMatches | server/internal/game/words.go:168-183 | a guess is accepted when it is the secret or an alias, perhaps behind prefix letters |
| Words.WinningGuessIsRefusedAsHint | server/internal/game/words.go:108-183 | every text that matches the secret as a guess leaks it |
| Words.TidyingKeepsNormalForm | server/internal/game/words.go:43-69 | tidying a hint changes its normal form only by fillers |
| Words.HebrewAndAsciiIsPrintable | server/internal/game/words.go:43-69 | the alphabet of Hebrew and ASCII has what that asks of format characters, spaces and fillers |
| MatchBoard.WinningGuessIsNoHint | server/internal/game/game.go:426-460 | where the secret's normal form has no filler, a citizen's hint that would win as a guess is refused however it is typed, and changes nothing |
| Words.FilledSecretIsHinted | server/internal/game/words.go:43-69 | with a filler in the secret it need not be: such a secret is accepted as a guess and, tidied, does not count as leaking itself |
| Words.VerdictDependsOnNormalForm | server/internal/game/words.go:108-162 | only the normal form of a hint decides whether it leaks or repeats |
| WordLaws.NormalOfPlain | server/internal/game/words.go:57-69 | letters and digits are kept in lower case, anything else is dropped |
| WordLaws.NormalOfFinal | server/internal/game/words.go:55-69 | the five Hebrew final letters become their regular forms |
| WordLaws.NormalOfForm | server/internal/game/words.go:25-69 | a presentation form counts as the letters it draws |
| WordLaws.SameHintMeans | server/internal/game/words.go:155-162 | two hints are the same exactly when one normal form is the other, perhaps behind one to three prefix letters; so in either order |
| WordLaws.RightGuessMeans | server/internal/game/words.go:164-183 | a guess is right exactly when it is the secret or an alias, perhaps behind prefix letters |
| WordLaws.LeakMeans | server/internal/game/words.go:93-153 | a hint leaks exactly when the secret stands at its start behind prefix letters, or anywhere if it has four letters, or one of its several words stands as its length allows |
| WordLaws.FieldsMean | server/internal/game/words.go:128 | words are what spaces part |
| WordLaws.CleaningMeans | server/internal/game/words.go:43-53 | format characters go, fillers become spaces, all else stays |
| WordLaws.TrimmingMeans | server/internal/game/game.go:436 | trimming takes the spaces from both ends and nothing else |
| Rooms.Room.constructor | server/internal/room/room.go:160-170 | a room opens in the lobby, unlocked, with its host as only, connected member |
| Rooms.Room.New | server/internal/room/room.go:149-170 | code, host and settings are checked in order |
| Rooms.Room.Join | server/internal/room/room.go:174-200 | tick, then a newcomer is let in if there is no game and there is space, the settings lock, and a room without a host gets one |
| Rooms.Room.UpdateSettings | server/internal/room/room.go:202-216 | tick, then the host of an unlocked lobby may change to valid settings |
| Rooms.Room.Kick | server/internal/room/room.go:219-231 | tick, then the host of a lobby may remove another member |
| Rooms.Room.Start | server/internal/room/room.go:236-241 | tick, then the host of a lobby may start |
| Rooms.Room.StartByServer | server/internal/room/room.go:245-251 | tick, then a lobby may be started without a host command |
| Rooms.Room.Begin | server/internal/room/room.go:253-277 | a match of all members is opened with the room's hint time, the offline ones marked |
| Rooms.Room.WithGame | server/internal/room/room.go:284-292 | tick, then the command on the match, then the room follows the match |
| Rooms.Room.Leave | server/internal/room/room.go:299-316 | tick, then a member is out of match and room, a host is followed, and the room follows the match |
| Rooms.Room.Disconnect | server/internal/room/room.go:320-341 | tick, then a member is offline in room and match, and a host is on the clock |
| Rooms.Room.Reconnect | server/internal/room/room.go:345-372 | tick, then a member is online in room and match, and may become the missing host |
| Rooms.Room.Deadline | server/internal/room/room.go:375-383 | the sooner of the host's timer and the match's |
| Rooms.Room.Tick | server/internal/room/room.go:386-397 | the match's timers first, then the host's |
| Rooms.Room.HostInLobby | server/internal/room/room.go:425-436 | who may do a host's work, and when |
| Rooms.Room.Find | server/internal/room/room.go:438-445 | the first member with an id, if there is one |
| Rooms.Room.RemoveMember | server/internal/room/room.go:447-451 | the member is gone, and whether there was one |
| Rooms.Room.TransferHost | server/internal/room/room.go:458-484 | hand-over, or a room waiting for a host |
| Rooms.Room.SyncGame | server/internal/room/room.go:488-518 | members out of the match leave the room, and an ended match takes the room back to the lobby |
| RoomRules.Heir | server/internal/room/room.go:461-466 | the first connected member who is somebody else |
| RoomInvariant.DismissMembers | server/internal/room/room.go:447-451 | removal takes away exactly one id and keeps the rest distinct |
| RoomSeats.TransferSeats | server/internal/room/room.go:458-484 | every hand-over leaves a room whose host is a member, on the clock exactly while offline, or has none with nobody else there |
| RoomMatch.MoveLines | server/internal/game/game.go:571-615 | a player still in a running match can always drop and return, and only their own line moves |
| RoomMatch.LeaverIsOut | server/internal/game/game.go:619-631 | whoever leaves a running match is out of it |
| RoomAgreement.SyncAgrees | server/internal/room/room.go:488-518 | following the match brings the members level with it |
| RoomAgreement.StartInv | server/internal/room/room.go:253-277 | a start needs four members and content, nothing else, and the new match agrees with the room |
| RoomCalls.LeaveInv | server/internal/room/room.go:299-316 | leaving succeeds exactly for members and keeps room and match agreed |
| RoomCalls.DisconnectInv | server/internal/room/room.go:320-341 | dropping succeeds exactly for members and keeps room and match agreed |
| RoomCalls.ReconnectInv | server/internal/room/room.go:345-372 | returning succeeds exactly for members and keeps room and match agreed |
| RoomCalls.ActInv | server/internal/room/room.go:174-372 | every call keeps room and match agreed |
| RoomCalls.TraceInv | server/internal/room/room.go:174-397 | every sequence of calls keeps room and match agreed |
| RoomReach.ReachedInv | server/internal/room/room.go:104-125 | every room that calls can lead to is agreed with its match and in join order |
| RoomSafety.RoomAndMatchAgree | server/internal/room/room.go:486-518 | in game exactly while the match is live; members are exactly the players still in it, equally connected; the match is a reachable one |
| RoomSafety.PresenceCallsNeverFail | server/internal/room/room.go:299-372 | the match never objects to a member leaving, dropping or returning |
| RoomSafety.HostIsSafe | server/internal/room/room.go:104-125 | in every reachable room the host is a member with the timer running exactly while offline, and without a host only the timed-out one may be connected |
| RoomSuccession.LongestPresentTakesOver | server/internal/room/room.go:453-484 | a hand-over never names the replaced host and names the longest-present connected member if there is one |
| RoomSuccession.TimeoutHandsOver | server/internal/room/room.go:386-397 | ... so does the tick that ends a host's reconnect time |
| RoomSuccession.LeavingHostIsFollowed | server/internal/room/room.go:299-316 | ... and the exit of a host, in a lobby or in a match, who is followed as long as anybody is left |
| RoomSuccession.RemovedHostIsFollowed | server/internal/room/room.go:488-518 | a host removed from the match, alone or with others, is followed by the longest-present connected member, or else by the first who is left |
| RoomSuccession.NewcomerTakesOver | server/internal/room/room.go:188-197 | in a room without a host the next to join runs it, unless that is the host who timed out |
| RoomSuccession.ReturnerTakesOver | server/internal/room/room.go:361-366 | ... and so does the next to return, in a lobby or in a match |
| RoomSafety.RoomShape | server/internal/room/room.go:71-78 | ids stay distinct and non-empty, the limit in force holds, an unlocked room has one member, members stand in join order |
| RoomSafety.StartNeedsOnlyContent | server/internal/room/room.go:233-277 | the host of a lobby of four or more is refused only for missing content or policy |
| RoomAuthority.OnlyTheHostMay | server/internal/room/room.go:425-436 | starting, kicking and setting up are refused to everybody but the host, and to the host outside a lobby, and then change nothing |
| RoomAuthority.HostKicks | server/internal/room/room.go:219-231 | the host of a lobby may kick every other member, and exactly that one is gone |
| RoomAuthority.HostSetsUp | server/internal/room/room.go:202-216 | the host of an unlocked lobby may choose any valid settings, and those are the settings then |
| RoomAuthority.LobbiesLetIn | server/internal/room/room.go:174-200 | joining: who is answered, refused and let in, and who then hosts |
| RoomAuthority.StartsStart | server/internal/room/room.go:236-277 | a start by host or server needs four members and content; the match is then one of exactly the members, as they are there, dealt by the draw, on the room's hint time |
| RoomPresence.CommandsGoToTheMatch | server/internal/room/room.go:284-292 | a command of a match is answered and carried out by the match, and changes nothing of the room but to end its game |
| RoomPresence.LinesMove | server/internal/room/room.go:320-372 | a member's line drops and returns, in room and match, with what follows for the host and nothing else |
| RoomPresence.ExitsLeave | server/internal/room/room.go:299-316 | an exit takes exactly the one member out of room and match, and a host who leaves is followed and that recorded |
| RoomPresence.RoomsOpen | server/internal/room/room.go:149-170 | a room opens exactly for a code of six digits, a named host and valid settings, with nobody but that host in it |
| RoomSafety.RoomTickSettles | server/internal/room/room.go:375-397 | after a tick no timer of the room has passed |
| RoomSafety.RoomTickBeforeDeadline | server/internal/room/room.go:375-397 | before its deadline a tick changes nothing |
| RoomSafety.UnattendedRoomReturns | server/internal/room/room.go:386-397 | a room left alone is back in the lobby once the bound of its match has passed, however it is ticked until then |
| RoomDepartures.SyncIsAfter | server/internal/room/room.go:488-518 | following the match one player after the other is one simultaneous departure: who is out goes, and a host among them is followed by whoever is next in line, or in a room where nobody is connected by the first who stays |
| RoomStrikes.StrikeComesBeforeHandOver | server/internal/room/room.go:320-341 | in every reached room no strike comes later than a reconnect time from now, and in a match the host's comes no later than the hand-over for being away |
| RoomTicks.RoomTicksCompose | server/internal/room/room.go:386-397 | a tick in between makes no difference in a lobby, nor while anybody is connected, whoever strikes out; where nobody is it makes one, beyond the record of the last hand-over, exactly when it finds the host out and the first who is left, on the clock from it, is still in the match at the later tick |
| RoomTicks.RoomTicksComposeBeforeTheStrike | server/internal/room/room.go:386-397 | what a caller can see beforehand: it makes none unless nobody is connected and a third strike of the host is due |
| RoomTicks.RoomTicksRecordAlike | server/internal/room/room.go:458-484 | the record of the last hand-over agrees too, unless some members go at the earlier tick and others at the later one |
| RoomTicks.RoomTicksDiffer | server/internal/room/room.go:386-397 | it always does when the host strikes out while nobody is connected: the successor's clock dates from the tick |
| RoomExample.RoomTicksNeedNotCompose | server/internal/room/room.go:386-397 | such a room is reached by thirteen calls, given one by one, and an extra tick changes what the next one leaves |
| ReplyCache.Replies.Lookup | server/internal/api/ws.go:520-523 | the cached reply, while it is in time |
| ReplyCache.Replies.Store | server/internal/api/ws.go:525-532 | the reply is cached and the excess goes |
| ReplyCache.Replies.Discard | server/internal/api/ws.go:536-544 | expired and excess replies go, oldest first, but not one its id has used again |
| ReplyCache.Replies.HandleFrame | server/internal/api/ws.go:180-206 | a hit is replayed, a limited frame is neither run nor cached, anything else is run and cached |
| ReplyCache.GetIsReference | server/internal/api/ws.go:520-523 | the cache answers what the log of everything ever run would |
| ReplyCache.RunIsReference | server/internal/api/ws.go:180-206 | over whole sessions, with pruning anywhere, the bounded cache gives exactly the log's answers |
| ReplyCache.LogAtMostOnce | server/internal/api/ws.go:180-206 | a command id runs again only when its reply has expired or a hundred others ran since |
| ReplyCache.RepeatsAreReplayed | server/internal/api/ws.go:505-544 | a frame is answered from the cache exactly when its id ran in time with fewer than a hundred commands since, with that reply |
| ReplyCache.CacheIsBounded | server/internal/api/ws.go:534-544 | every cached reply has its queue entry, and at most a hundred are held |
| Limiter.RateLimiter.constructor | server/internal/api/limits.go:49-51 | a limiter starts without buckets, its rate per second |
| Limiter.RateLimiter.Take | server/internal/api/limits.go:55-73 | a call refills its bucket and takes a token if there is one |
| Limiter.RateLimiter.Forget | server/internal/api/limits.go:83-92 | exactly the buckets idle for too long are gone |
| Limiter.AllowTakesOne | server/internal/api/limits.go:55-73 | a call is allowed exactly when a token is available, and takes one, from its own key |
| Limiter.SweepKeeps | server/internal/api/limits.go:75-92 | a sweep that waits out a refill takes nothing away and gives nothing |
| Limiter.WindowBound | server/internal/api/limits.go:49-92 | in any window of any history a key is allowed at most the burst plus the rate times the window |
| Limiter.MinuteBound | server/internal/api/limits.go:49-73 | so many a minute means at most that many and the burst in any minute |
| Limiter.PatienceIsRewarded | server/internal/api/limits.go:49-73 | ... and who has waited their share of a minute is allowed |
| Limiter.SweepsAreInvisible | server/internal/api/limits.go:75-92 | such sweeps, anywhere in a history, change no answer for any key |
| Limiter.ServerSweepsArePatient | server/internal/api/limits.go:28-37 | the limiters the server configures are refilled within the reaper's idle time |
| Limiter.ZeroRateAllowsAll | server/internal/api/limits.go:53-58 | a rate of zero or less allows everything |
| Matchmaking.StartTimers.Update | server/internal/matchmaking/matchmaking.go:42-53 | below four both timers stop; otherwise each starts at most once |
| Matchmaking.TimersSince | server/internal/matchmaking/matchmaking.go:38-53 | after any history each timer dates from the first time its number was reached in the current stretch of four or more |
| Matchmaking.StartOfTheStretch | server/internal/matchmaking/matchmaking.go:55-61 | after any history the start is the sooner of the two |
| Matchmaking.StartsExactlyWithFour | server/internal/matchmaking/matchmaking.go:55-71 | there is a start time exactly while the last count is four or more, and the status says so |
| Matchmaking.StartNeverMovesLater | server/internal/matchmaking/matchmaking.go:42-61 | within a stretch the start never moves later |

## Left out

- Match.Game: players are values in a map rather than objects behind pointers, and hints values in a
  sequence, so aliasing between them is not captured; map iteration order is left arbitrary, as in Go.
- Match.Game.New: the random generator is a parameter (any shuffle, any seat), so its quality and the
  error for a missing generator are not modelled.
- Match.Game.VoteCounts: of `View` only the two vote counts, and for rooms the statuses and the phase, are
  modelled; the rest copies and filters fields.
- Words.NormalizeWord: the Unicode tables are parameters; `Lawful` states the few facts used about them,
  and characters outside the tables given in the source are whatever those parameters say.
- Words.WinningGuessIsRefusedAsHint: configured aliases are accepted as guesses but not checked as hints,
  in the code as here.
- RoomTicks.RoomTicksRecordAlike: where nobody is connected, the host goes, and removals fall on both sides
  of the earlier tick, whether the records of the last hand-over agree depends on seats and is not stated.
- MatchBoard.WinningGuessIsNoHint: which of the secrets with a filler in their normal form may be hinted is
  not characterised; `Words.FilledSecretIsHinted` gives one that may.
- RoomRules.ActWithGame: commands are the six meant to go through it, not arbitrary functions on a match.
- ReplyCache.Handle: replies are strings and what a command does is a parameter of the frame.
- Limiter.Allow: arithmetic is exact rather than floating point; the nil limiter is not modelled.
- Matchmaking.Updated: grouping by categories and the caller's resets of the timers are not modelled.
- Clocks: moments are unbounded integers; overflow of durations is not modelled.
- HTTP and WebSocket transport, JSON, sessions, lobbies, staging bots, moderation, purchases, metrics,
  logging and the mobile apps are not part of this model.
