/** The board of a reachable match: fairness of turns, no repeated hint, no leaked secret, no lost reaction. */
module MatchBoard {
  import opened Basics
  import Words
  import opened MatchTypes
  import opened MatchRules
  import opened MatchClock
  import opened MatchCommands
  import opened MatchInvariant
  import opened MatchOpening

  ghost predicate EntryOf(hints: seq<Hint>, round: nat, k: int, id: Id) {
    0 <= k < |hints| && hints[k].player == id && hints[k].round == round
  }

  lemma OneEntryEach(u: Setup, hints: seq<Hint>, last: nat, round: nat, j: int, k: int, id: Id)
    requires ValidSetup(u) && Board(u, hints, last) && EntryOf(hints, round, j, id) && EntryOf(hints, round, k, id)
    ensures j == k
  {
    hide ValidSetup, Words.SameHint, Seat, EntryOk;
  }

  /** When a vote is pending or open, every active player has had exactly one turn this round, given or missed. */
  lemma TurnsAreFair(s: State, id: Id)
    requires Reachable(s) && (s.phase == PreVoting || InVote(s.phase)) && id in Actives(s.players)
    ensures exists k :: EntryOf(s.hints, s.round, k, id) && forall j :: EntryOf(s.hints, s.round, j, id) ==> j == k
  {
    hide Board, Reachable, Strikes, Filed, Ballot, Verdict, Distinct;
    ReachableInv(s);
    assert id in Elements(s.setup.order);
    assert s.setup.order[Seat(s.setup.order, id)] == id;
    var k :| 0 <= k < |s.hints| && s.hints[k].player == id && s.hints[k].round == s.round;
    forall j | EntryOf(s.hints, s.round, j, id) ensures j == k {
      OneEntryEach(s.setup, s.hints, s.round, s.round, j, k, id);
    }
    assert EntryOf(s.hints, s.round, k, id);
  }

  /** The board is in order of round, and within a round strictly in turn order. */
  lemma BoardInTurnOrder(s: State, i: nat, j: nat)
    requires Reachable(s) && i < j < |s.hints|
    ensures s.hints[i].player in s.setup.order && s.hints[j].player in s.setup.order
    ensures 1 <= s.hints[i].round <= s.hints[j].round <= s.round
    ensures s.hints[i].round == s.hints[j].round ==>
      Seat(s.setup.order, s.hints[i].player) < Seat(s.setup.order, s.hints[j].player)
  {
    hide Words.SameHint, Reachable, Seat;
    ReachableInv(s);
    assert EntriesOrdered(s.setup, s.hints[i], s.hints[j]);
    assert EntryOk(s.setup, s.hints[i], s.round) && EntryOk(s.setup, s.hints[j], s.round);
  }

  /** No two submitted hints of a match, in any rounds, are the same hint; no citizen's hint would win as a guess. */
  lemma HintsAreFreshAndSafe(s: State, i: nat, j: nat)
    requires Reachable(s) && i < |s.hints| && j < |s.hints| && !s.hints[i].missing && !s.hints[j].missing
    ensures i != j ==> !Words.SameHint(s.setup.policy.alphabet, s.hints[i].text, s.hints[j].text)
    ensures s.hints[i].player != s.setup.impostor && Words.Normalize(s.setup.policy.alphabet, s.setup.secret) != [] ==>
      !Words.Accepts(s.setup.policy.alphabet, s.hints[i].text, s.setup.secret, [])
  {
    hide Words.Normalize, Words.ContainsSecret, Words.Accepts, Reachable, Seat, Words.IsPrefixed;
    var ab := s.setup.policy.alphabet;
    ReachableInv(s);
    if i < j {
      assert EntriesOrdered(s.setup, s.hints[i], s.hints[j]);
    } else if j < i {
      assert EntriesOrdered(s.setup, s.hints[j], s.hints[i]);
    }
    assert EntryOk(s.setup, s.hints[i], s.round);
    if Words.Normalize(ab, s.setup.secret) != [] && Words.Accepts(ab, s.hints[i].text, s.setup.secret, []) {
      Words.WinningGuessIsRefusedAsHint(ab, s.hints[i].text, s.setup.secret);
    }
  }

  /** However it is typed, a citizen cannot hint what would win as a guess; nothing but the timers moves. */
  lemma WinningGuessIsNoHint(s: State, now: Time, id: Id, text: string)
    requires Wf(s) && id != s.setup.impostor
    requires var ab := s.setup.policy.alphabet;
      && Words.Printable(ab) && Words.Normalize(ab, s.setup.secret) != []
      && !Words.Filled(Words.Normalize(ab, s.setup.secret))
      && Words.Accepts(ab, text, s.setup.secret, [])
    ensures var r := Apply(s, now, SubmitHint(id, text)); r.1 != Ok && r.0 == Tick(s, now)
  {
    hide Tick, ValidSetup, Elements, Actives, Words.Normalize, Words.ContainsSecret, Words.Accepts, Words.Printable,
      Words.TrimSpace, Words.CleanHint, RepeatsHint;
    Words.WinningGuessLeaksTidied(s.setup.policy.alphabet, text, s.setup.secret);
  }

  // ----- where a reaction lands -----

  lemma RoundsInOrder(s: State)
    requires Reachable(s)
    ensures forall i, j :: 0 <= i < j < |s.hints| ==> s.hints[i].round <= s.hints[j].round
  {
    hide Reachable;
    forall i, j | 0 <= i < j < |s.hints| ensures s.hints[i].round <= s.hints[j].round {
      BoardInTurnOrder(s, i, j);
    }
  }

  lemma {:induction false} AnchorWalk(hints: seq<Hint>, k: int, round: int)
    requires -1 <= k < |hints|
    ensures var a := Anchor(hints, k, round);
      && (forall j :: a < j <= k ==> hints[j].missing && hints[j].round == round)
      && (a >= 0 ==> !(hints[a].missing && hints[a].round == round))
    decreases k + 1
  {
    if k >= 0 && hints[k].missing && hints[k].round == round {
      AnchorWalk(hints, k - 1, round);
    }
  }

  /** Some hint was given at or before entry `k` in the round of `k`. */
  ghost predicate GivenBy(s: State, k: int) {
    exists j :: 0 <= j <= k < |s.hints| && !s.hints[j].missing && s.hints[j].round == s.hints[k].round
  }

  ghost predicate NearestGiven(s: State, k: int, a: int) {
    && 0 <= a <= k < |s.hints| && !s.hints[a].missing && s.hints[a].round == s.hints[k].round
    && forall j :: a < j <= k ==> s.hints[j].missing && s.hints[j].round == s.hints[k].round
  }

  /**
   * Before the round's first entry every reaction waits.  After that it goes to the nearest hint
   * given at or before the one clicked, in its round; with no such hint it waits if that round is
   * the one being played, and is refused if not.
   */
  lemma ReactionLandsOnNearestGivenHint(s: State, k: int)
    requires Reachable(s)
    ensures var opens := s.phase == Hints && !HasHintThisRound(s);
      && (opens ==> Land(s, k).Wait?)
      && (!opens ==>
            && (Land(s, k).On? <==> GivenBy(s, k))
            && (Land(s, k).On? ==> NearestGiven(s, k, Land(s, k).index))
            && (Land(s, k).Wait? <==>
                  0 <= k < |s.hints| && !GivenBy(s, k) && s.phase == Hints && s.hints[k].round == s.round))
  {
    hide Reachable, HasHintThisRound;
    RoundsInOrder(s);
    if 0 <= k < |s.hints| {
      var a := Anchor(s.hints, k, s.hints[k].round);
      AnchorWalk(s.hints, k, s.hints[k].round);
      assert GivenBy(s, k) ==> a >= 0 && s.hints[a].round == s.hints[k].round;
      assert Land(s, k).On? ==> NearestGiven(s, k, a);
    }
  }

  // ----- reactions are conserved -----

  function CountIn(reactions: map<string, nat>, x: string): nat { if x in reactions then reactions[x] else 0 }

  /** How often reaction `x` stands on the board. */
  ghost function Shown(hints: seq<Hint>, x: string): nat {
    if hints == [] then 0 else Shown(hints[..|hints| - 1], x) + CountIn(hints[|hints| - 1].reactions, x)
  }

  /** ... on the board or waiting for the first hint of the round. */
  ghost function Kept(s: State, x: string): nat { Shown(s.hints, x) + CountIn(s.pending, x) }

  lemma ShownAdd(hints: seq<Hint>, h: Hint, x: string)
    ensures Shown(hints + [h], x) == Shown(hints, x) + CountIn(h.reactions, x)
  {
    assert (hints + [h])[..|hints|] == hints;
  }

  lemma {:induction false} ShownUpdate(hints: seq<Hint>, a: nat, h: Hint, x: string)
    requires a < |hints|
    ensures Shown(hints[a := h], x) == Shown(hints, x) - CountIn(hints[a].reactions, x) + CountIn(h.reactions, x)
    decreases |hints|
  {
    var n := |hints| - 1;
    var more := hints[a := h];
    if a == n {
      assert more[..n] == hints[..n];
    } else {
      ShownUpdate(hints[..n], a, h, x);
      assert more[..n] == hints[..n][a := h];
    }
  }

  /** One change keeps every reaction, except that a new round drops those still waiting. */
  ghost predicate Keeps(s: State, r: State, x: string, added: nat) {
    if r.round == s.round then Kept(r, x) == Kept(s, x) + added
    else r.round == s.round + 1 && added == 0 && r.hints == s.hints && r.pending == map[]
  }

  lemma StepKeeps(s: State, x: string)
    requires Live(s)
    ensures Keeps(s, Step(s), x, 0)
  {
    hide CountStrikes, Expire, PlayersMove, ValidSetup, Actives, Elements, EarliestStrike, OutAt, StruckAt, Keeps;
    match NextTimer(s)
    case StrikeDue(at) => SameKeeps(s, Step(s), x);
    case PhaseDue(at) =>
      ExpireKeeps(s, at, x);
      VersionKeeps(s, Expire(s, at), s.version + 1, x);
  }

  lemma SameKeeps(s: State, r: State, x: string)
    requires r.round == s.round + 1 ==> r.hints == s.hints && r.pending == map[]
    requires r.round != s.round + 1 ==> r.round == s.round && r.hints == s.hints && r.pending == s.pending
    ensures Keeps(s, r, x, 0)
  {
  }

  lemma VersionKeeps(s: State, r: State, version: nat, x: string)
    requires Keeps(s, r, x, 0)
    ensures Keeps(s, r.(version := version), x, 0)
  {
  }

  lemma ExpireKeeps(s: State, at: Time, x: string)
    requires Live(s)
    ensures Keeps(s, Expire(s, at), x, 0)
  {
    hide StartTurn, Tally, StartRound, StartVoting, End, PlayersMove, ValidSetup, Actives, ActiveIds, Elements;
    if s.phase == Hints { ShownAdd(s.hints, MissingHint(s), x); }
  }

  predicate IsReaction(c: Command, x: string) { c.React? && c.reaction == x }

  lemma ActKeeps(s: State, now: Time, c: Command, x: string)
    requires Wf(s)
    ensures var r := Act(s, now, c); Keeps(s, r.0, x, if IsReaction(c, x) && r.1 == Ok then 1 else 0)
  {
    hide ActConfirmRole, ActReact, ActSubmitHint, ActVote, ActSubmitGuess, ActContinueAfterElimination, ActDisconnect,
      ActReconnect, ActLeave, Keeps, ValidSetup, Actives;
    match c
    case React(id, k, reaction) => ActReactKeeps(s, id, k, reaction, x);
    case SubmitHint(id, text) => ActSubmitHintKeeps(s, id, text, now, x);
    case ConfirmRole(id) => OtherKeeps(s, now, c, x);
    case ContinueAfterElimination(id) => OtherKeeps(s, now, c, x);
    case Vote(id, target) => OtherKeeps(s, now, c, x);
    case SubmitGuess(id, guess) => OtherKeeps(s, now, c, x);
    case Disconnect(id) => ActDisconnectKeeps(s, id, now, x);
    case Reconnect(id) => ActReconnectKeeps(s, id, now, x);
    case Leave(id) => OtherKeeps(s, now, c, x);
  }

  lemma ActReactKeeps(s: State, id: Id, k: int, reaction: string, x: string)
    requires Wf(s)
    ensures var r := ActReact(s, id, k, reaction); Keeps(s, r.0, x, if reaction == x && r.1 == Ok then 1 else 0)
  {
    hide ValidSetup, Actives, Elements, Shape, Land, Shown;
    if Land(s, k).On? {
      var a := Land(s, k).index;
      ShownUpdate(s.hints, a, s.hints[a].(reactions := Added(s.hints[a].reactions, reaction)), x);
    }
  }

  lemma ActSubmitHintKeeps(s: State, id: Id, text: string, now: Time, x: string)
    requires Wf(s)
    ensures Keeps(s, ActSubmitHint(s, id, text, now).0, x, 0)
  {
    hide ValidSetup, Actives, Shown, HintVerdict;
    ShownAdd(s.hints, Hint(id, Tidy(s.setup.policy.alphabet, text), s.round, false, s.pending), x);
  }

  lemma OtherKeeps(s: State, now: Time, c: Command, x: string)
    requires Wf(s) && (c.ConfirmRole? || c.ContinueAfterElimination? || c.Vote? || c.SubmitGuess? || c.Leave?)
    ensures Keeps(s, Act(s, now, c).0, x, 0)
  {
    hide ValidSetup, Actives, Elements, Shown, MaybeAdvance, RemoveAll, End, PlayersMove, Words.Accepts;
  }

  lemma ActDisconnectKeeps(s: State, id: Id, now: Time, x: string)
    requires Wf(s)
    ensures Keeps(s, ActDisconnect(s, id, now).0, x, 0)
  {
    hide ValidSetup, Actives, Elements, Shown, MaybeAdvance, PlayersMove, Dropped;
  }

  lemma ActReconnectKeeps(s: State, id: Id, now: Time, x: string)
    requires Wf(s)
    ensures Keeps(s, ActReconnect(s, id, now).0, x, 0)
  {
    hide ValidSetup, Actives, Elements, Shown, MaybeAdvance, PlayersMove, Returned;
  }

  /** The accepted reactions `x` of a run. */
  ghost function AcceptedReactions(s: State, events: seq<Event>, x: string): nat
    requires Wf(s)
    decreases |events|
  {
    if events == [] then 0
    else match events[0]
      case Timer(at) => AcceptedReactions(Tick(s, at), events[1..], x)
      case Call(at, c) =>
        var r := Apply(s, at, c);
        (if IsReaction(c, x) && r.1 == Ok then 1 else 0) + AcceptedReactions(r.0, events[1..], x)
  }

  /** The waiting reactions `x` that a change drops: all of them when it opens a round. */
  ghost function Lost(s: State, r: State, x: string): nat {
    if r.round == s.round then 0 else CountIn(s.pending, x)
  }

  /** ... that the timers up to `now` drop. */
  ghost function TickDrops(s: State, now: Time, x: string): nat
    requires Wf(s)
    decreases PendingStrikes(s.players), Overdue(s, now)
  {
    if Due(s, now) then StepProgress(s, now); Lost(s, Step(s), x) + TickDrops(Step(s), now, x) else 0
  }

  /** ... that a run drops. */
  ghost function RunDrops(s: State, events: seq<Event>, x: string): nat
    requires Wf(s)
    decreases |events|
  {
    if events == [] then 0
    else match events[0]
      case Timer(at) => TickDrops(s, at, x) + RunDrops(Tick(s, at), events[1..], x)
      case Call(at, c) =>
        var t := Tick(s, at);
        var r := Act(t, at, c).0;
        TickDrops(s, at, x) + Lost(t, r, x) + RunDrops(r, events[1..], x)
  }

  /** The account of reaction `x` over a stretch of play; the board never loses any. */
  ghost predicate Preserves(s: State, r: State, x: string, added: nat, dropped: nat) {
    Kept(r, x) + dropped == Kept(s, x) + added && Shown(s.hints, x) <= Shown(r.hints, x)
  }

  lemma KeepsIsPreserves(s: State, r: State, x: string, added: nat)
    requires Keeps(s, r, x, added) && Shown(s.hints, x) <= Shown(r.hints, x)
    ensures Preserves(s, r, x, added, Lost(s, r, x))
  {
  }

  lemma StepShows(s: State, x: string)
    requires Live(s)
    ensures Shown(s.hints, x) <= Shown(Step(s).hints, x)
  {
    hide CountStrikes, StartTurn, Tally, StartRound, StartVoting, End, PlayersMove, ValidSetup, Actives, ActiveIds,
      Elements, EarliestStrike, OutAt, StruckAt;
    if s.phase == Hints {
      ShownAdd(s.hints, MissingHint(s), x);
    }
  }

  lemma ActShows(s: State, now: Time, c: Command, x: string)
    requires Wf(s)
    ensures Shown(s.hints, x) <= Shown(Act(s, now, c).0.hints, x)
  {
    hide ValidSetup, Actives, Elements, MaybeAdvance, RemoveAll, End, PlayersMove, Dropped, Returned, Shown,
      HintVerdict, Land, Words.Accepts, Shape;
    if c.SubmitHint? {
      ShownAdd(s.hints, Hint(c.id, Tidy(s.setup.policy.alphabet, c.text), s.round, false, s.pending), x);
    }
    if c.React? && Land(s, c.hintIndex).On? {
      var a := Land(s, c.hintIndex).index;
      ShownUpdate(s.hints, a, s.hints[a].(reactions := Added(s.hints[a].reactions, c.reaction)), x);
    }
  }

  lemma {:induction false} TickPreserves(s: State, now: Time, x: string)
    requires Wf(s)
    ensures Preserves(s, Tick(s, now), x, 0, TickDrops(s, now, x))
    decreases PendingStrikes(s.players), Overdue(s, now)
  {
    hide Step, Keeps, Wf, Shown, Lost;
    if Due(s, now) {
      StepProgress(s, now);
      StepKeeps(s, x);
      StepShows(s, x);
      KeepsIsPreserves(s, Step(s), x, 0);
      TickPreserves(Step(s), now, x);
    }
  }

  /**
   * Reactions over whole runs: what is on the board or waiting is exactly what was there, plus one per
   * accepted reaction, less those still waiting whenever a round opened; the board never loses any.
   */
  lemma {:induction false} ReactionsAreConserved(s: State, events: seq<Event>, x: string)
    requires Wf(s)
    ensures Preserves(s, Run(s, events).0, x, AcceptedReactions(s, events, x), RunDrops(s, events, x))
    decreases |events|
  {
    hide Tick, Act, Keeps, Wf, Shown, Lost, TickDrops;
    if events != [] {
      match events[0]
      case Timer(at) =>
        TickPreserves(s, at, x);
        ReactionsAreConserved(Tick(s, at), events[1..], x);
      case Call(at, c) =>
        var t := Tick(s, at);
        TickPreserves(s, at, x);
        ActKeeps(t, at, c, x);
        ActShows(t, at, c, x);
        KeepsIsPreserves(t, Act(t, at, c).0, x, if IsReaction(c, x) && Act(t, at, c).1 == Ok then 1 else 0);
        ReactionsAreConserved(Act(t, at, c).0, events[1..], x);
    }
  }
}
