/**
 * Setting up a match, the nine timed commands and whole runs (server/internal/game/game.go).
 * `Act` is a command after its leading `Tick`; `Apply` is the whole command.
 */
module MatchCommands {
  import opened Basics
  import Words
  import opened MatchTypes
  import opened MatchRules
  import opened MatchClock

  // ----- New and MarkOffline -----

  /** The arguments `New` accepts, apart from the draw of order and impostor. */
  ghost predicate Playable(cfg: Config, policy: Policy, ids: seq<Id>, category: string, secret: string) {
    && MIN_PLAYERS_TO_START <= |ids| <= MAX_PLAYERS
    && category != "" && secret != ""
    && policy.Complete()
    && cfg.Positive()
    && "" !in ids && Distinct(ids)
  }

  ghost function NewPlayers(ids: seq<Id>): map<Id, Player> {
    map id | id in Elements(ids) :: Player(Active, true, 0, false, None)
  }

  /** The match `New` opens once the turn order and the impostor have been drawn. */
  ghost function Opening(cfg: Config, policy: Policy, category: string, secret: string,
    order: seq<Id>, impostor: Id, now: Time): State
  {
    SetPhase(
      State(Setup(cfg, policy, category, secret, order, impostor), NewPlayers(order), RoleReveal, None, 1,
            1, 0, None, false, [], map[], [], 0, false, map[], [], [], "", [], 0, None),
      RoleReveal, now, cfg.roleReveal)
  }

  /** `MarkOffline` */
  ghost function MarkOffline(s: State, id: Id): (r: (State, Reply))
    requires Wf(s)
    ensures Wf(r.0)
  {
    if id !in s.players then (s, Err(UnknownPlayer))
    else if s.version != 1 then (s, Err(WrongPhase))
    else (s.(players := s.players[id := s.players[id].(connected := false)]), Ok)
  }

  // ----- commands -----

  ghost function Bump(s: State): State { s.(version := s.version + 1) }

  /** `activePlayer` */
  ghost function ActivePlayer(s: State, id: Id): Reply {
    if id !in s.players then Err(UnknownPlayer)
    else if s.players[id].status != Active then Err(PlayerNotActive)
    else Ok
  }

  /** `watcher` */
  ghost function Watcher(s: State, id: Id): Reply {
    if id !in s.players then Err(UnknownPlayer)
    else if !s.players[id].Watching() then Err(PlayerNotActive)
    else Ok
  }

  ghost function Confirm(s: State, id: Id): State
    requires id in s.players
  {
    s.(players := s.players[id := s.players[id].(confirmed := true)])
  }

  ghost function ActConfirmRole(s: State, id: Id, now: Time): (r: (State, Reply))
    requires Wf(s)
    ensures Wf(r.0) && r.0.setup == s.setup
  {
    if ActivePlayer(s, id) != Ok then (s, ActivePlayer(s, id))
    else if s.phase != RoleReveal then (s, Err(WrongPhase))
    else if s.players[id].confirmed then (s, Ok)
    else (Bump(MaybeAdvance(Confirm(s, id), now)), Ok)
  }

  ghost function ActContinueAfterElimination(s: State, id: Id, now: Time): (r: (State, Reply))
    requires Wf(s)
    ensures Wf(r.0) && r.0.setup == s.setup
  {
    if s.phase != EliminationReveal then (s, Err(WrongPhase))
    else if Watcher(s, id) != Ok then (s, Watcher(s, id))
    else if s.players[id].confirmed then (s, Ok)
    else (Bump(MaybeAdvance(Confirm(s, id), now)), Ok)
  }

  /** The text `SubmitHint` keeps of what was typed. */
  function Tidy(ab: Words.Alphabet, text: string): string { Words.TrimSpace(ab, Words.CleanHint(ab, text)) }

  ghost predicate RepeatsHint(s: State, text: string) {
    exists k :: 0 <= k < |s.hints| && !s.hints[k].missing &&
      Words.SameHint(s.setup.policy.alphabet, text, s.hints[k].text)
  }

  /** The checks of `SubmitHint`, in order, on the tidied text. */
  ghost function HintVerdict(s: State, id: Id, text: string): Reply
    requires Wf(s)
  {
    var ab := s.setup.policy.alphabet;
    if ActivePlayer(s, id) != Ok then ActivePlayer(s, id)
    else if s.phase != Hints then Err(WrongPhase)
    else if Holder(s) != id || s.reconnecting then Err(NotYourTurn)
    else if text == "" || Words.Normalize(ab, text) == "" then Err(HintEmpty)
    else if exists c :: c in text && ab.isSpace(c) then Err(HintNotOneWord)
    else if |text| > MAX_HINT_RUNES then Err(HintTooLong)
    else if s.setup.policy.hintInappropriate.value(text) then Err(HintInappropriate)
    else if id != s.setup.impostor && Words.ContainsSecret(ab, text, s.setup.secret) then Err(HintContainsSecret)
    else if RepeatsHint(s, text) then Err(HintDuplicate)
    else Ok
  }

  ghost function ActSubmitHint(s: State, id: Id, text: string, now: Time): (r: (State, Reply))
    requires Wf(s)
    ensures Wf(r.0) && r.0.setup == s.setup
  {
    var tidy := Tidy(s.setup.policy.alphabet, text);
    var verdict := HintVerdict(s, id, tidy);
    if verdict != Ok then (s, verdict)
    else
      var t := s.(hints := s.hints + [Hint(id, tidy, s.round, false, s.pending)], pending := map[]);
      (Bump(SetPhase(t, HintBreak, now, s.setup.cfg.hintBreak)), Ok)
  }

  /** `hasHintThisRound` */
  ghost predicate HasHintThisRound(s: State) { exists k :: 0 <= k < |s.hints| && s.hints[k].round == s.round }

  /** The walk back over missing hints of one round in `React`. */
  ghost function Anchor(hints: seq<Hint>, k: int, round: int): (r: int)
    requires -1 <= k < |hints|
    ensures -1 <= r <= k
    decreases k + 1
  {
    if k >= 0 && hints[k].missing && hints[k].round == round then Anchor(hints, k - 1, round) else k
  }

  datatype Landing = Wait | On(index: nat) | Nowhere

  /** Where a reaction to hint `k` goes. */
  ghost function Land(s: State, k: int): (r: Landing)
    ensures r.On? ==> r.index < |s.hints|
  {
    if s.phase == Hints && !HasHintThisRound(s) then Wait
    else if k < 0 || |s.hints| <= k then Nowhere
    else
      var round := s.hints[k].round;
      var a := Anchor(s.hints, k, round);
      if a >= 0 && s.hints[a].round == round then On(a)
      else if s.phase == Hints && round == s.round then Wait
      else Nowhere
  }

  function Added(reactions: map<string, nat>, reaction: string): map<string, nat> {
    reactions[reaction := if reaction in reactions then reactions[reaction] + 1 else 1]
  }

  ghost function ActReact(s: State, id: Id, k: int, reaction: string): (r: (State, Reply))
    requires Wf(s)
    ensures Wf(r.0) && r.0.setup == s.setup
  {
    if Watcher(s, id) != Ok then (s, Watcher(s, id))
    else if s.phase == RoleReveal || s.phase == Ended then (s, Err(WrongPhase))
    else if !s.setup.policy.validReaction.value(reaction) then (s, Err(InvalidReaction))
    else match Land(s, k)
      case Nowhere => (s, Err(InvalidHint))
      case Wait => (Bump(s.(pending := Added(s.pending, reaction))), Ok)
      case On(a) =>
        var h := s.hints[a];
        (Bump(s.(hints := s.hints[a := h.(reactions := Added(h.reactions, reaction))])), Ok)
  }

  ghost function ActVote(s: State, id: Id, target: Id, now: Time): (r: (State, Reply))
    requires Wf(s)
    ensures Wf(r.0) && r.0.setup == s.setup
  {
    if ActivePlayer(s, id) != Ok then (s, ActivePlayer(s, id))
    else if !InVote(s.phase) then (s, Err(WrongPhase))
    else if id == target then (s, Err(SelfVote))
    else if target !in s.candidates then (s, Err(InvalidVoteTarget))
    else (Bump(MaybeAdvance(s.(votes := s.votes[id := target], voteCast := true), now)), Ok)
  }

  ghost function Aliases(u: Setup): seq<string> {
    if u.policy.guessAliases.None? then [] else u.policy.guessAliases.value(u.secret)
  }

  ghost function ActSubmitGuess(s: State, id: Id, guess: string): (r: (State, Reply))
    requires Wf(s)
    ensures Wf(r.0) && r.0.setup == s.setup
  {
    if ActivePlayer(s, id) != Ok then (s, ActivePlayer(s, id))
    else if s.phase != ImpostorGuess then (s, Err(WrongPhase))
    else if id != s.setup.impostor then (s, Err(NotImpostor))
    else if Words.Accepts(s.setup.policy.alphabet, guess, s.setup.secret, Aliases(s.setup))
    then (Bump(End(s, Impostor, ImpostorGuessedWord)), Ok)
    else (Bump(End(s, Citizens, ImpostorGuessWrong)), Ok)
  }

  /** The player goes offline; in a live match an active player's drop counts if it lasts. */
  ghost function Dropped(s: State, id: Id, now: Time): (r: State)
    requires Wf(s) && id in s.players
    ensures Wf(r) && r == s.(players := r.players)
  {
    var p := s.players[id].(connected := false);
    var q := if s.phase != Ended && p.status == Active then p.(strikeAt := Some(now + s.setup.cfg.reconnect)) else p;
    SameActives(s.players, id, q);
    s.(players := s.players[id := q])
  }

  /** The player is back; a drop that has not counted yet is forgotten. */
  ghost function Returned(s: State, id: Id): (r: State)
    requires Wf(s) && id in s.players
    ensures Wf(r) && r == s.(players := r.players)
  {
    var q := s.players[id].(connected := true, strikeAt := None);
    SameActives(s.players, id, q);
    s.(players := s.players[id := q])
  }

  lemma SameActives(players: map<Id, Player>, id: Id, p: Player)
    requires id in players && p.status == players[id].status
    ensures Actives(players[id := p]) == Actives(players)
  {
  }

  ghost function ActDisconnect(s: State, id: Id, now: Time): (r: (State, Reply))
    requires Wf(s)
    ensures Wf(r.0) && r.0.setup == s.setup
  {
    hide ValidSetup, Elements, Actives, PlayersMove;
    if Watcher(s, id) != Ok then (s, Watcher(s, id))
    else if !s.players[id].connected then (s, Ok)
    else
      var t := Dropped(s, id, now);
      if s.phase == Hints && Holder(s) == id then (Bump(AwaitReconnect(t, now)), Ok)
      else if s.phase == RoleReveal || s.phase == EliminationReveal || InVote(s.phase)
      then (Bump(MaybeAdvance(t, now)), Ok)
      else (Bump(t), Ok)
  }

  ghost function ActReconnect(s: State, id: Id, now: Time): (r: (State, Reply))
    requires Wf(s)
    ensures Wf(r.0) && r.0.setup == s.setup
  {
    hide ValidSetup, Elements, Actives, PlayersMove;
    if Watcher(s, id) != Ok then (s, Watcher(s, id))
    else if s.players[id].connected then (s, Ok)
    else
      var t := Returned(s, id);
      if s.phase == Hints && s.players[id].status == Active && Holder(s) == id
      then (Bump(t.(reconnecting := false, deadline := s.turnDeadline)), Ok)
      else if InVote(s.phase) then (Bump(MaybeAdvance(t, now)), Ok)
      else (Bump(t), Ok)
  }

  ghost function ActLeave(s: State, id: Id, now: Time): (r: (State, Reply))
    requires Wf(s)
    ensures Wf(r.0) && r.0.setup == s.setup
  {
    if id !in s.players then (s, Err(UnknownPlayer))
    else if s.phase == Ended || !s.players[id].Watching() then (s, Ok)
    else (Bump(RemoveAll(s, {id}, Left, now)), Ok)
  }

  // ----- whole commands and runs -----

  /** A command once its leading `Tick` is done. */
  ghost function Act(s: State, now: Time, c: Command): (r: (State, Reply))
    requires Wf(s)
    ensures Wf(r.0) && r.0.setup == s.setup
  {
    match c
    case ConfirmRole(id) => ActConfirmRole(s, id, now)
    case SubmitHint(id, text) => ActSubmitHint(s, id, text, now)
    case React(id, k, reaction) => ActReact(s, id, k, reaction)
    case Vote(id, target) => ActVote(s, id, target, now)
    case SubmitGuess(id, guess) => ActSubmitGuess(s, id, guess)
    case ContinueAfterElimination(id) => ActContinueAfterElimination(s, id, now)
    case Disconnect(id) => ActDisconnect(s, id, now)
    case Reconnect(id) => ActReconnect(s, id, now)
    case Leave(id) => ActLeave(s, id, now)
  }

  /** A command as the caller gives it: expired timers first, then the command. */
  ghost function Apply(s: State, now: Time, c: Command): (r: (State, Reply))
    requires Wf(s)
    ensures Wf(r.0) && r.0.setup == s.setup
  {
    Act(Tick(s, now), now, c)
  }

  /** One call on a match: a bare `Tick`, or a command. */
  datatype Event = Timer(at: Time) | Call(at: Time, command: Command)

  /** What a sequence of calls makes of a match, and the replies to its commands. */
  ghost function Run(s: State, events: seq<Event>): (r: (State, seq<Reply>))
    requires Wf(s)
    ensures Wf(r.0) && r.0.setup == s.setup
    decreases |events|
  {
    if events == [] then (s, [])
    else match events[0]
      case Timer(at) => Run(Tick(s, at), events[1..])
      case Call(at, c) =>
        var first := Apply(s, at, c);
        var rest := Run(first.0, events[1..]);
        (rest.0, [first.1] + rest.1)
  }

  /** Calls come in order of time, none before `from` nor after `to`. */
  ghost predicate InOrder(from: Time, events: seq<Event>, to: Time)
    decreases |events|
  {
    if events == [] then from <= to else from <= events[0].at && InOrder(events[0].at, events[1..], to)
  }

  ghost function Commands(events: seq<Event>): seq<Event> {
    if events == [] then []
    else if events[0].Timer? then Commands(events[1..])
    else [events[0]] + Commands(events[1..])
  }

  /** Two matches that agree once the timers up to `from` have run give the same replies and end up agreeing. */
  lemma {:induction false} RunsAgree(s: State, t: State, from: Time, events: seq<Event>, to: Time)
    requires Wf(s) && Wf(t) && Tick(s, from) == Tick(t, from) && InOrder(from, events, to)
    ensures Run(s, events).1 == Run(t, Commands(events)).1
    ensures Tick(Run(s, events).0, to) == Tick(Run(t, Commands(events)).0, to)
    decreases |events|
  {
    if events == [] {
      TickComposes(s, from, to);
      TickComposes(t, from, to);
    } else {
      var at := events[0].at;
      TickComposes(s, from, at);
      TickComposes(t, from, at);
      match events[0]
      case Timer(_) =>
        TickComposes(s, at, at);
        RunsAgree(Tick(s, at), t, at, events[1..], to);
      case Call(_, c) =>
        var next := Apply(s, at, c).0;
        RunsAgree(next, next, at, events[1..], to);
        assert Commands(events)[1..] == Commands(events[1..]);
    }
  }

  /**
   * How often and when the caller ticks does not matter: two runs with the same commands,
   * whatever ticks stand between them, give the same replies and the same match.
   */
  lemma TimerScheduleDoesNotMatter(s: State, a: seq<Event>, b: seq<Event>, from: Time, to: Time)
    requires Wf(s) && Commands(a) == Commands(b) && InOrder(from, a, to) && InOrder(from, b, to)
    ensures Run(s, a).1 == Run(s, b).1
    ensures Tick(Run(s, a).0, to) == Tick(Run(s, b).0, to)
  {
    RunsAgree(s, s, from, a, to);
    RunsAgree(s, s, from, b, to);
  }
}
