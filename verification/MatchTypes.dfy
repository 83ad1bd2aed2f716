/** The data of one match (server/internal/game/game.go, the type and constant declarations). */
module MatchTypes {
  import opened Basics
  import Words

  const MAX_PLAYERS := 8
  const MIN_PLAYERS_TO_START := 4
  const MIN_PLAYERS_TO_CONTINUE := 3
  const MAX_HINT_RUNES := 25
  const MAX_DISCONNECTS := 3
  const MAX_SILENT_VOTES := 2

  datatype Phase =
    | RoleReveal | Hints | HintBreak | PreVoting | Voting | RunoffVoting
    | EliminationReveal | ImpostorGuess | Ended

  datatype Status = Active | Eliminated | Left | Removed

  datatype Team = NoTeam | Citizens | Impostor

  datatype Outcome = Win | Loss | NoOutcome

  datatype EndReason =
    | ImpostorParity | ImpostorGuessedWord | ImpostorGuessWrong | ImpostorGuessTimeout
    | ImpostorGone | Abandoned | NotEnoughPlayers

  datatype Error =
    | InvalidSetup | UnknownPlayer | PlayerNotActive | WrongPhase | NotYourTurn
    | HintEmpty | HintNotOneWord | HintTooLong | HintInappropriate | HintContainsSecret
    | HintDuplicate | InvalidHint | InvalidReaction | SelfVote | InvalidVoteTarget | NotImpostor

  /** The error result of a command; `Ok` is Go's nil error. */
  datatype Reply = Ok | Err(error: Error)

  datatype Config = Config(
    hint: int, vote: int, runoffVote: int, guess: int, preVoting: int,
    eliminationReveal: int, hintBreak: int, reconnect: int, roleReveal: int)
  {
    predicate Positive() {
      0 < hint && 0 < vote && 0 < runoffVote && 0 < guess && 0 < preVoting &&
      0 < eliminationReveal && 0 < hintBreak && 0 < reconnect && 0 < roleReveal
    }
  }

  /** Content checks supplied by the caller; a nil Go function is `None`. */
  datatype Policy = Policy(
    alphabet: Words.Alphabet,
    hintInappropriate: Option<string -> bool>,
    validReaction: Option<string -> bool>,
    guessAliases: Option<string -> seq<string>>)
  {
    predicate Complete() { hintInappropriate.Some? && validReaction.Some? }
  }

  /** What `New` fixes for the whole match. */
  datatype Setup = Setup(
    cfg: Config, policy: Policy, category: string, secret: string, order: seq<Id>, impostor: Id)

  datatype Player = Player(
    status: Status, connected: bool, disconnects: nat, confirmed: bool, strikeAt: Option<Time>)
  {
    predicate Watching() { status == Active || status == Eliminated }
  }

  datatype Hint = Hint(
    player: Id, text: string, round: int, missing: bool, reactions: map<string, nat>)

  datatype Result = Result(
    winner: Team, reason: EndReason, impostor: Id, secret: string,
    voteRounds: seq<map<Id, Id>>, abstentions: seq<int>, outcomes: map<Id, Outcome>)

  /** Every field of `Game`. */
  datatype State = State(
    setup: Setup,
    players: map<Id, Player>,
    phase: Phase,
    deadline: Option<Time>,
    version: nat,
    round: nat,
    turn: nat,
    turnDeadline: Option<Time>,
    reconnecting: bool,
    hints: seq<Hint>,
    pending: map<string, nat>,
    candidates: seq<Id>,
    silentVotes: nat,
    voteCast: bool,
    votes: map<Id, Id>,
    voteRounds: seq<map<Id, Id>>,
    abstentions: seq<int>,
    lastEliminated: Id,
    tied: seq<Id>,
    tiedVotes: nat,
    result: Option<Result>)

  datatype Command =
    | ConfirmRole(id: Id)
    | SubmitHint(id: Id, text: string)
    | React(id: Id, hintIndex: int, reaction: string)
    | Vote(id: Id, target: Id)
    | SubmitGuess(id: Id, guess: string)
    | ContinueAfterElimination(id: Id)
    | Disconnect(id: Id)
    | Reconnect(id: Id)
    | Leave(id: Id)
}
