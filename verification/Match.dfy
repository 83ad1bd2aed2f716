/**
 * The match itself: `Game` of server/internal/game/game.go, its fields updated in place.
 * `Abs` reads the fields off as a `State`; every method makes of them what the rules say.
 */
module Match {
  import opened Basics
  import Words
  import opened MatchTypes
  import Rules = MatchRules
  import Clock = MatchClock
  import Commands = MatchCommands
  import Keeps = MatchKeeps
  import Openings = MatchOpening

  class Game {
    const cfg: Config
    const policy: Policy
    const category: string
    const secret: string
    const order: seq<Id>
    const impostor: Id

    var players: map<Id, Player>
    var phase: Phase
    var deadline: Option<Time>
    var version: nat
    var round: nat
    var turn: nat
    var turnDeadline: Option<Time>
    var reconnecting: bool
    var hints: seq<Hint>
    var pending: map<string, nat>
    var candidates: seq<Id>
    var silentVotes: nat
    var voteCast: bool
    var votes: map<Id, Id>
    var voteRounds: seq<map<Id, Id>>
    var abstentions: seq<int>
    var lastEliminated: Id
    var tied: seq<Id>
    var tiedVotes: nat
    var result: Option<Result>

    ghost function Abs(): State
      reads this
    {
      State(Setup(cfg, policy, category, secret, order, impostor), players, phase, deadline, version, round, turn,
            turnDeadline, reconnecting, hints, pending, candidates, silentVotes, voteCast, votes, voteRounds,
            abstentions, lastEliminated, tied, tiedVotes, result)
    }

    ghost predicate Valid()
      reads this
    {
      Rules.Wf(Abs())
    }

    // ----- opening -----

    constructor (cfg: Config, policy: Policy, category: string, secret: string, order: seq<Id>, impostor: Id,
      players: map<Id, Player>, now: Time)
      requires cfg.Positive() && players == Commands.NewPlayers(order)
      ensures Abs() == Commands.Opening(cfg, policy, category, secret, order, impostor, now)
    {
      this.cfg, this.policy, this.category, this.secret := cfg, policy, category, secret;
      this.order, this.impostor, this.players := order, impostor, players;
      phase, deadline, version := RoleReveal, None, 1;
      round, turn, turnDeadline, reconnecting := 1, 0, None, false;
      hints, pending, candidates, silentVotes, voteCast := [], map[], [], 0, false;
      votes, voteRounds, abstentions := map[], [], [];
      lastEliminated, tied, tiedVotes, result := "", [], 0, None;
      new;
      SetPhase(RoleReveal, now, cfg.roleReveal);
    }

    /** `New`, given the shuffled ids and the seat drawn for the impostor. */
    static method New(cfg: Config, policy: Policy, ids: seq<Id>, category: string, secret: string,
      order: seq<Id>, seat: nat, now: Time) returns (g: Game?, reply: Reply)
      requires multiset(order) == multiset(ids) && (ids != [] ==> seat < |order|)
      ensures reply == if g == null then Err(InvalidSetup) else Ok
      ensures g == null <==> Openings.New(cfg, policy, ids, category, secret, order, seat, now).None?
      ensures g != null ==> fresh(g)
      ensures g != null ==> Some(g.Abs()) == Openings.New(cfg, policy, ids, category, secret, order, seat, now)
    {
      if |ids| < MIN_PLAYERS_TO_START || |ids| > MAX_PLAYERS || category == "" || secret == ""
         || policy.hintInappropriate.None? || policy.validReaction.None? || !cfg.Positive() {
        return null, Err(InvalidSetup);
      }
      var ok, players := Deal(ids);
      if !ok { return null, Err(InvalidSetup); }
      Openings.ShuffleKeepsIds(ids, order);
      g := new Game(cfg, policy, category, secret, order, order[seat], players, now);
      reply := Ok;
    }

    /** The loop of `New`: one player for each id, unless an id is empty or repeated. */
    static method Deal(ids: seq<Id>) returns (ok: bool, players: map<Id, Player>)
      ensures ok <==> "" !in ids && Rules.Distinct(ids)
      ensures ok ==> players == Commands.NewPlayers(ids)
    {
      players := map[];
      var i := 0;
      while i < |ids|
        invariant 0 <= i <= |ids|
        invariant players == Commands.NewPlayers(ids[..i])
        invariant "" !in ids[..i] && Rules.Distinct(ids[..i])
      {
        assert ids[..i + 1] == ids[..i] + [ids[i]];
        if ids[i] == "" || ids[i] in players {
          assert ids[i] in ids[..i] || ids[i] == "";
          return false, players;
        }
        players := players[ids[i] := Player(Active, true, 0, false, None)];
        i := i + 1;
      }
      assert ids[..i] == ids;
      return true, players;
    }

    /** `MarkOffline` */
    method MarkOffline(id: Id) returns (reply: Reply)
      requires Valid()
      modifies this
      ensures (Abs(), reply) == Commands.MarkOffline(old(Abs()), id)
    {
      if id !in players { return Err(UnknownPlayer); }
      if version != 1 { return Err(WrongPhase); }
      players := players[id := players[id].(connected := false)];
      return Ok;
    }

    // ----- timers -----

    /** `nextDeadline`: the earliest timer, and whose strike it is. */
    method NextDeadline() returns (next: Option<Time>, removeId: Id)
      requires Valid()
      ensures match Clock.NextTimer(Abs())
        case Idle => next == None && removeId == ""
        case StrikeDue(at) => next == Some(at) && removeId != ""
        case PhaseDue(at) => next == Some(at) && removeId == ""
    {
      hide Rules.ValidSetup, Rules.Actives;
      SeatsAreNamed(Abs());
      next, removeId := deadline, "";
      if phase == Ended { return; }
      var i := 0;
      while i < |order|
        invariant 0 <= i <= |order|
        invariant next.Some? && next.value <= deadline.value
        invariant forall k :: 0 <= k < i && Clock.Pending(players, order[k]) ==>
          next.value <= players[order[k]].strikeAt.value
        invariant removeId == "" ==> next == deadline
        invariant removeId == "" ==>
          forall k :: 0 <= k < i && Clock.Pending(players, order[k]) ==> next.value < players[order[k]].strikeAt.value
        invariant removeId != "" ==>
          removeId in order && Clock.Pending(players, removeId) && players[removeId].strikeAt == next
      {
        assert order[i] in Rules.Elements(order);
        var p := players[order[i]];
        if p.status == Active && p.strikeAt.Some? {
          if p.strikeAt.value < next.value || (removeId == "" && p.strikeAt == next) {
            next, removeId := p.strikeAt, order[i];
          }
        }
        i := i + 1;
      }
    }

    /** `Deadline` */
    method Deadline() returns (next: Option<Time>)
      requires Valid()
      ensures next == Clock.Deadline(Abs())
    {
      var removeId: Id;
      next, removeId := NextDeadline();
    }

    /** `Tick`: every timer that has passed, in order, each at its own moment. */
    method Tick(now: Time)
      requires Valid()
      modifies this
      ensures Abs() == Clock.Tick(old(Abs()), now) && Valid()
    {
      hide Clock.Step, Rules.Wf;
      var fired := Fire(now);
      while fired
        invariant Valid() && Clock.Tick(Abs(), now) == Clock.Tick(old(Abs()), now)
        invariant !fired ==> !Clock.Due(Abs(), now)
        decreases fired, Clock.PendingStrikes(players), Clock.Overdue(Abs(), now)
      {
        if Clock.Due(Abs(), now) { Clock.StepProgress(Abs(), now); }
        fired := Fire(now);
      }
    }

    /** The body of `Tick`'s loop: the next timer, if it has passed. */
    method Fire(now: Time) returns (fired: bool)
      requires Valid()
      modifies this
      ensures Valid() && fired == old(Clock.Due(Abs(), now))
      ensures Abs() == if fired then Clock.Step(old(Abs())) else old(Abs())
    {
      hide Clock.CountStrikes, Rules.Expire, Clock.EarliestStrike, Rules.ValidSetup, Rules.Elements, Rules.Actives;
      var at, removeId := NextDeadline();
      if at.None? || now < at.value { return false; }
      if removeId != "" {
        CountStrikes(at.value);
      } else {
        Expire(at.value);
      }
      version := version + 1;
      return true;
    }

    /** The strike branch of `Tick`. */
    method CountStrikes(at: Time)
      requires Valid() && phase != Ended
      modifies this
      ensures Abs() == Clock.CountStrikes(old(Abs()), at) && Valid()
    {
      hide Rules.RemoveAll, Clock.OutAt, Rules.Elements, Rules.Wf, Clock.Strike;
      ghost var s := Abs();
      var removeIds := Strikes(at);
      Clock.StrikeKeepsShape(s, at);
      if |removeIds| > 0 {
        MemberOf(removeIds);
        RemoveAll(removeIds, Removed, at);
      } else {
        NoMembers(removeIds);
      }
    }

    /** The loop over the players in the strike branch of `Tick`. */
    method Strikes(at: Time) returns (removeIds: seq<Id>)
      requires Valid()
      modifies `players
      ensures Abs() == Clock.Strike(old(Abs()), at)
      ensures Rules.Elements(removeIds) == Clock.OutAt(old(Abs()), at)
    {
      hide Rules.Elements, Rules.Wf, StruckAmong, Clock.OutAt, Clock.Strike;
      ghost var s := Abs();
      EveryoneStruck(s, at);
      removeIds := [];
      NoMembers(removeIds);
      NoMembers(order[..0]);
      var i := 0;
      while i < |order|
        invariant 0 <= i <= |order|
        invariant players == StruckAmong(s, at, Rules.Elements(order[..i]))
        invariant Rules.Elements(removeIds) == Clock.OutAt(s, at) * Rules.Elements(order[..i])
      {
        StruckAmongNext(s, at, i);
        var id := order[i];
        var p := players[id];
        if p.status == Active && p.strikeAt == Some(at) {
          p := p.(strikeAt := None, disconnects := p.disconnects + 1);
          players := players[id := p];
          if p.disconnects >= MAX_DISCONNECTS {
            AddMember(removeIds, id);
            removeIds := removeIds + [id];
          }
        }
        i := i + 1;
      }
      assert order[..i] == order;
      EveryoneSeated(s);
    }

    /** `expire` */
    method Expire(at: Time)
      requires Valid() && phase != Ended
      modifies this
      ensures Abs() == Rules.Expire(old(Abs()), at) && Valid()
    {
      hide Rules.StartTurn, Rules.Tally, Rules.StartVoting, Rules.StartRound, Rules.End, Rules.PlayersMove,
        Rules.ValidSetup, Rules.Changes, Rules.ActiveIds, Rules.Elements;
      match phase
      case RoleReveal => StartTurn(0, at);
      case Hints => PassTurn(at);
      case HintBreak => StartTurn(turn + 1, at);
      case PreVoting =>
        var ids := ActiveIDs();
        Rules.DurationsPositive(Abs().setup);
        StartVoting(Voting, ids, at, cfg.vote);
      case Voting => Tally(at);
      case RunoffVoting => Tally(at);
      case EliminationReveal => StartRound(at);
      case ImpostorGuess => End(Citizens, ImpostorGuessTimeout);
    }

    /** The turn ran out: a missing hint is filed and the next player has the turn. */
    method PassTurn(at: Time)
      requires Valid() && phase == Hints
      modifies this
      ensures var s := old(Abs());
        Abs() == Rules.StartTurn(s.(hints := s.hints + [Rules.MissingHint(s)], pending := map[]), s.turn + 1, at)
    {
      hide Rules.StartTurn, Rules.ValidSetup, Rules.Elements, Rules.Actives;
      ghost var s := Abs();
      FileHint(Hint(order[turn], "", round, true, map[]));
      assert Abs() == s.(hints := s.hints + [Rules.MissingHint(s)], pending := map[]);
      StartTurn(turn + 1, at);
    }

    /** An entry goes on the board with the reactions that were waiting for it. */
    method FileHint(h: Hint)
      requires h.reactions == map[]
      modifies `hints, `pending
      ensures hints == old(hints) + [h.(reactions := old(pending))] && pending == map[]
    {
      var hint := h;
      if pending != map[] {
        hint := hint.(reactions := pending);
        pending := map[];
      }
      hints := hints + [hint];
    }

    // ----- phases -----

    method SetPhase(phase: Phase, from: Time, d: int)
      modifies `phase, `deadline
      ensures this.phase == phase && deadline == if d > 0 then Some(from + d) else None
    {
      this.phase := phase;
      deadline := None;
      if d > 0 { deadline := Some(from + d); }
    }

    /** `end` */
    method End(winner: Team, reason: EndReason)
      requires Rules.Shape(Abs())
      modifies this
      ensures Abs() == Rules.End(old(Abs()), winner, reason) && Valid()
    {
      hide Rules.ValidSetup, Rules.Elements;
      if result.Some? { return; }
      var outcomes := Outcomes(winner, reason);
      Close(Result(winner, reason, impostor, secret, voteRounds, abstentions, outcomes));
    }

    method Close(r: Result)
      modifies `result, `reconnecting, `phase, `deadline
      ensures result == Some(r) && !reconnecting && phase == Ended && deadline == None
    {
      result := Some(r);
      reconnecting := false;
      SetPhase(Ended, 0, 0);
    }

    /** The loop of `end`. */
    method Outcomes(winner: Team, reason: EndReason) returns (outcomes: map<Id, Outcome>)
      ensures outcomes == map id | id in players :: Rules.OutcomeOf(players[id], id == impostor, winner, reason)
    {
      outcomes := map[];
      var todo := players.Keys;
      while todo != {}
        invariant todo <= players.Keys
        invariant outcomes == map id | id in players && id !in todo ::
          Rules.OutcomeOf(players[id], id == impostor, winner, reason)
      {
        var id :| id in todo;
        todo := todo - {id};
        if reason == Abandoned {
          outcomes := outcomes[id := NoOutcome];
          continue;
        }
        var stillIn := players[id].status == Active || players[id].status == Eliminated;
        var won := stillIn && (winner == NoTeam || (winner == Impostor) == (id == impostor));
        outcomes := outcomes[id := Loss];
        if won { outcomes := outcomes[id := Win]; }
      }
    }

    method NextActive(from: nat) returns (i: nat)
      requires Rules.Shape(Abs()) && from <= |order|
      ensures i == Rules.NextActive(order, players, from)
      ensures i < |order| ==> order[i] in players
    {
      i := from;
      while i < |order| && players[order[i]].status != Active
        invariant from <= i <= |order|
        invariant Rules.NextActive(order, players, from) == Rules.NextActive(order, players, i)
        invariant forall k :: 0 <= k < |order| ==> order[k] in players
      {
        i := i + 1;
      }
    }

    /** `startTurn` */
    method StartTurn(from: nat, at: Time)
      requires Valid() && phase != Ended && from <= |order|
      modifies this
      ensures Abs() == Rules.StartTurn(old(Abs()), from, at) && Valid()
    {
      hide Rules.Elements, Rules.ValidSetup, Rules.PlayersMove, Rules.Actives, Rules.NextActive, Rules.OpenTurn;
      ghost var s := Abs();
      Rules.DurationsPositive(s.setup);
      var i := NextActive(from);
      if i == |order| {
        SetPhase(PreVoting, at, cfg.preVoting);
        return;
      }
      TakeTurn(i, at);
    }

    /** The half of `startTurn` that gives the turn to seat `i`. */
    method TakeTurn(i: nat, at: Time)
      requires Valid() && phase != Ended && i < |order| && order[i] in Rules.Actives(players)
      modifies this
      ensures Abs() == Rules.OpenTurn(old(Abs()), i, at)
    {
      hide Rules.Elements, Rules.ValidSetup, Rules.PlayersMove, Rules.Changes, Rules.TurnClock;
      ghost var s := Abs();
      Rules.DurationsPositive(s.setup);
      GiveTurn(i, at);
      assert Abs() == s.(turn := i, reconnecting := false, phase := Hints, deadline := deadline,
        turnDeadline := deadline);
      if !players[order[i]].connected {
        AwaitReconnect(at);
      }
    }

    /** The fields of the turn that `startTurn` sets. */
    method GiveTurn(i: nat, at: Time)
      requires 0 < cfg.hint
      modifies `turn, `reconnecting, `phase, `deadline, `turnDeadline
      ensures turn == i && !reconnecting && phase == Hints && deadline == turnDeadline == Some(at + cfg.hint)
    {
      turn := i;
      reconnecting := false;
      SetPhase(Hints, at, cfg.hint);
      turnDeadline := deadline;
    }

    /** `awaitReconnect` */
    method AwaitReconnect(at: Time)
      requires Valid() && turnDeadline.Some?
      modifies `reconnecting, `deadline
      ensures Abs() == Rules.AwaitReconnect(old(Abs()), at)
    {
      hide Rules.Wf;
      reconnecting := true;
      deadline := Some(at + cfg.reconnect);
      if turnDeadline.value < deadline.value {
        deadline := turnDeadline;
      }
    }

    /** `startRound` */
    method StartRound(at: Time)
      requires Valid() && phase != Ended
      modifies this
      ensures Abs() == Rules.StartRound(old(Abs()), at) && Valid()
    {
      hide Rules.StartTurn, Rules.ValidSetup, Rules.PlayersMove, Rules.Actives, Rules.Elements;
      ghost var s := Abs();
      ClearRound();
      assert Abs() == s.(lastEliminated := "", tied := [], pending := map[], round := s.round + 1, candidates := [],
        votes := map[]);
      NoMembers(candidates);
      StartTurn(0, at);
    }

    /** What `startRound` resets. */
    method ClearRound()
      modifies `lastEliminated, `tied, `pending, `round, `candidates, `votes
      ensures lastEliminated == "" && tied == [] && pending == map[] && candidates == [] && votes == map[]
      ensures round == old(round) + 1
    {
      lastEliminated := "";
      tied := [];
      pending := map[];
      round := round + 1;
      candidates := [];
      votes := map[];
    }

    method ResetAcks()
      modifies `players
      ensures players == Rules.Unconfirmed(old(players))
    {
      ghost var before := players;
      var todo := players.Keys;
      while todo != {}
        invariant todo <= before.Keys
        invariant players == map id | id in before :: if id in todo then before[id] else before[id].(confirmed := false)
      {
        var id :| id in todo;
        todo := todo - {id};
        players := players[id := players[id].(confirmed := false)];
      }
    }

    method ShowElimination(id: Id, at: Time)
      requires Rules.Shape(Abs()) && phase != Ended
      modifies this
      ensures Abs() == Rules.ShowElimination(old(Abs()), id, at) && Valid()
    {
      hide Rules.Unconfirmed, Rules.PlayersMove, Rules.ValidSetup, Rules.Elements, Rules.Actives, Rules.RunsPast,
        Rules.InVote;
      ghost var s := Abs();
      NameEliminated(id);
      assert Abs() == s.(lastEliminated := id, players := Rules.Unconfirmed(s.players));
      SetPhase(EliminationReveal, at, cfg.eliminationReveal);
    }

    method NameEliminated(id: Id)
      modifies `lastEliminated, `players
      ensures lastEliminated == id && players == Rules.Unconfirmed(old(players))
    {
      hide Rules.Unconfirmed;
      lastEliminated := id;
      ResetAcks();
    }

    method Eliminate(id: Id, at: Time)
      requires Valid() && phase != Ended && id in Rules.Actives(players)
      modifies this
      ensures Abs() == Rules.Eliminate(old(Abs()), id, at) && Valid()
    {
      hide Rules.End, Rules.ShowElimination, Rules.ActiveCitizens, Rules.ActiveImpostors, Rules.PlayersMove,
        Rules.ValidSetup, Rules.Elements;
      SetStatus(id, Eliminated);
      assert Abs() == Rules.VotedOut(old(Abs()), id);
      var citizens, impostors := CitizensAndImpostors();
      if impostors >= citizens {
        End(Impostor, ImpostorParity);
      } else if citizens + impostors < MIN_PLAYERS_TO_CONTINUE {
        End(NoTeam, NotEnoughPlayers);
      } else {
        ShowElimination(id, at);
      }
    }

    /** `startVoting` */
    method StartVoting(phase: Phase, candidates: seq<Id>, at: Time, d: int)
      requires Valid() && this.phase != Ended && Rules.InVote(phase) && 0 < d
      requires Rules.Elements(candidates) <= Rules.Actives(players)
      modifies this
      ensures Abs() == Rules.StartVoting(old(Abs()), phase, candidates, at, d) && Valid()
    {
      hide Rules.ValidSetup, Rules.PlayersMove, Rules.Actives, Rules.Elements;
      OpenBallot(candidates);
      SetPhase(phase, at, d);
    }

    /** The fields of the vote that `startVoting` sets. */
    method OpenBallot(candidates: seq<Id>)
      modifies `reconnecting, `candidates, `votes, `voteCast
      ensures !reconnecting && this.candidates == candidates && votes == map[] && !voteCast
    {
      reconnecting := false;
      this.candidates := candidates;
      votes := map[];
      voteCast := false;
    }

    // ----- counting -----

    /** `activeIDs` */
    method ActiveIDs() returns (ids: seq<Id>)
      requires Rules.Shape(Abs())
      ensures ids == Rules.ActiveIds(order, players)
      ensures Rules.Distinct(ids) && Rules.Elements(ids) == Rules.Actives(players)
      ensures |ids| == |Rules.Actives(players)|
    {
      ids := [];
      var i := 0;
      while i < |order|
        invariant 0 <= i <= |order|
        invariant ids == Rules.ActiveIds(order[..i], players)
      {
        ActiveIdsSnoc(order[..i], order[i], players);
        assert order[..i + 1] == order[..i] + [order[i]];
        assert order[i] in Rules.Elements(order);
        if players[order[i]].status == Active { ids := ids + [order[i]]; }
        i := i + 1;
      }
      assert order[..i] == order;
      Rules.ActiveIdsElements(order, players);
      Keeps.ActiveIdsDistinct(order, players);
      Openings.DistinctSize(ids);
    }

    method CitizensAndImpostors() returns (citizens: nat, impostors: nat)
      requires Rules.Shape(Abs())
      ensures citizens == |Rules.ActiveCitizens(Abs())| && impostors == Rules.ActiveImpostors(Abs())
    {
      hide Rules.Elements, Rules.Shape, Rules.Actives, Rules.ActiveIds, Rules.Distinct;
      var ids := ActiveIDs();
      NoMembers(ids[..0]);
      citizens, impostors := 0, 0;
      var i := 0;
      while i < |ids|
        invariant 0 <= i <= |ids|
        invariant citizens == |Rules.Elements(ids[..i]) - {impostor}|
        invariant impostors == if impostor in Rules.Elements(ids[..i]) then 1 else 0
      {
        NextElement(ids, i);
        CountNext(Rules.Elements(ids[..i]), ids[i], impostor);
        if ids[i] == impostor {
          impostors := impostors + 1;
        } else {
          citizens := citizens + 1;
        }
        i := i + 1;
      }
      assert ids[..i] == ids;
    }

    method AllConnectedAcked(watchers: bool) returns (acked: bool)
      ensures acked <==> Rules.AllConnectedAcked(Abs(), watchers)
    {
      var todo := players.Keys;
      while todo != {}
        invariant todo <= players.Keys
        invariant forall id :: id in players && id !in todo && MustAck(players[id], watchers) ==> players[id].confirmed
      {
        var id :| id in todo;
        todo := todo - {id};
        if watchers {
          if players[id].status != Active && players[id].status != Eliminated { continue; }
        } else if players[id].status != Active {
          continue;
        }
        if players[id].connected && !players[id].confirmed { return false; }
      }
      return true;
    }

    method AllConnectedVoted() returns (voted: bool)
      ensures voted <==> Rules.AllConnectedVoted(Abs())
    {
      var anyone := false;
      var todo := players.Keys;
      while todo != {}
        invariant todo <= players.Keys
        invariant anyone <==> exists id :: id in Rules.ConnectedVoters(Abs()) && id !in todo
        invariant forall id :: id in Rules.ConnectedVoters(Abs()) && id !in todo ==> id in votes
      {
        var id :| id in todo;
        todo := todo - {id};
        assert id in Rules.ConnectedVoters(Abs()) <==>
          players[id].status == Active && players[id].connected && Rules.CanVote(candidates, id);
        if players[id].status != Active || !players[id].connected || !Rules.CanVote(candidates, id) { continue; }
        if id !in votes { return false; }
        anyone := true;
      }
      return anyone;
    }

    /** The two counts of a running vote that `View` shows: who may vote, and how many have. */
    method VoteCounts() returns (voters: nat, cast: nat)
      requires Valid()
      ensures voters == (if Rules.InVote(phase) then |Rules.Voters(Abs())| else 0)
      ensures cast == (if Rules.InVote(phase) then |votes| else 0)
    {
      hide Rules.Wf, Rules.Voters, Rules.CanVote;
      voters, cast := 0, 0;
      if phase != Voting && phase != RunoffVoting { return; }
      ghost var all := Rules.Voters(Abs());
      VotersAre(Abs());
      var todo := players.Keys;
      while todo != {}
        invariant todo <= players.Keys
        invariant voters == |all - todo|
      {
        var id :| id in todo;
        OneLess(all, todo, id);
        todo := todo - {id};
        if players[id].status == Active && Rules.CanVote(candidates, id) { voters := voters + 1; }
      }
      cast := |votes|;
    }

    // ----- votes -----

    /** `tally` */
    method Tally(at: Time)
      requires Valid() && Rules.InVote(phase)
      modifies this
      ensures Abs() == Rules.Tally(old(Abs()), at) && Valid()
    {
      hide Rules.ValidSetup, Rules.Actives, Rules.Elements, Rules.Tally, Rules.PlayersMove, Rules.Top, Rules.Most,
        Rules.End, Rules.Changes, Verdict, Counted;
      ghost var s := Abs();
      var counts := FileVotes();
      Filed(s);
      TallyCases(s, at);
      if |votes| == 0 && !voteCast && silentVotes >= MAX_SILENT_VOTES {
        End(NoTeam, Abandoned);
        return;
      }
      var top, most := PickTop(votes, counts);
      Settle(top, most, at);
    }

    /** The switch at the end of `tally`. */
    method Settle(top: seq<Id>, most: nat, at: Time)
      requires Valid() && Rules.InVote(phase)
      requires Rules.Elements(top) <= Rules.Actives(players) && (|top| == 1 ==> top[0] in Rules.Actives(players))
      modifies this
      ensures Abs() == Verdict(old(Abs()), top, most, at) && Valid()
    {
      hide Rules.ValidSetup, Rules.Actives, Rules.Elements, Rules.PlayersMove, Rules.StartVoting, Rules.Eliminate,
        Rules.ShowElimination, Rules.StartRound, Rules.Changes, Rules.RunsPast;
      Rules.DurationsPositive(Abs().setup);
      if |top| == 1 && top[0] == impostor {
        SetPhase(ImpostorGuess, at, cfg.guess);
      } else if |top| == 1 {
        Eliminate(top[0], at);
      } else if |top| > 1 && phase == Voting {
        StartVoting(RunoffVoting, top, at, cfg.runoffVote);
      } else if |top| > 1 {
        tied, tiedVotes := top, most;
        ShowElimination("", at);
      } else {
        StartRound(at);
      }
    }

    /** The head of `tally`: the votes are copied and counted, filed with the abstentions, and silence is noted. */
    method FileVotes() returns (counts: map<Id, nat>)
      requires Valid()
      modifies `voteRounds, `abstentions, `silentVotes
      ensures Abs() == Rules.FileVotes(old(Abs()))
      ensures Counted(counts, votes)
    {
      hide Rules.ValidSetup, Rules.Actives, Rules.Elements, Rules.ActiveIds, Rules.Distinct, Counted;
      var counted: map<Id, Id>;
      counted, counts := CountVotes();
      var ids := ActiveIDs();
      FileVote(counted, |ids| - |counted|);
    }

    /** What `tally` writes down of a vote. */
    method FileVote(counted: map<Id, Id>, abstained: int)
      modifies `voteRounds, `abstentions, `silentVotes
      ensures voteRounds == old(voteRounds) + [counted] && abstentions == old(abstentions) + [abstained]
      ensures silentVotes == if counted == map[] && !voteCast then old(silentVotes) + 1 else 0
    {
      voteRounds := voteRounds + [counted];
      abstentions := abstentions + [abstained];
      if |counted| == 0 && !voteCast {
        silentVotes := silentVotes + 1;
      } else {
        silentVotes := 0;
      }
    }

    /** The first loop of `tally`. */
    method CountVotes() returns (counted: map<Id, Id>, counts: map<Id, nat>)
      ensures counted == votes
      ensures Counted(counts, votes)
    {
      hide Counted;
      counted, counts := map[], map[];
      NoVotes();
      var todo := votes.Keys;
      while todo != {}
        invariant todo <= votes.Keys
        invariant counted == map v | v in votes && v !in todo :: votes[v]
        invariant Counted(counts, counted)
      {
        var voter :| voter in todo;
        todo := todo - {voter};
        var target := votes[voter];
        OneMoreVote(counts, counted, voter, target);
        counted := counted[voter := target];
        counts := counts[target := CountOf(counts, target) + 1];
      }
    }

    /** The second loop of `tally`: the candidates with the most votes so far. */
    method PickTop(counted: map<Id, Id>, counts: map<Id, nat>) returns (top: seq<Id>, most: nat)
      requires Counted(counts, counted)
      ensures top == Rules.Top(candidates, counted) && most == Rules.Most(candidates, counted)
    {
      hide Rules.VotesFor;
      top, most := [], 0;
      var i := 0;
      while i < |candidates|
        invariant 0 <= i <= |candidates|
        invariant most == Rules.Most(candidates[..i], counted)
        invariant top == if most == 0 then [] else Rules.WithCount(candidates[..i], counted, most)
      {
        var c := candidates[i];
        assert candidates[..i + 1] == candidates[..i] + [c];
        var n := CountOf(counts, c);
        MostSnoc(candidates[..i], c, counted);
        WithCountSnoc(candidates[..i], c, counted, n);
        WithCountSnoc(candidates[..i], c, counted, most);
        if n > most {
          NobodyAboveMost(candidates[..i], counted, n);
          top, most := [c], n;
        } else if n == most && n > 0 {
          top := top + [c];
        }
        i := i + 1;
      }
      assert candidates[..i] == candidates;
    }

    /** `maybeAdvanceTransition` */
    method MaybeAdvance(at: Time)
      requires Valid() && phase != Ended
      modifies this
      ensures Abs() == Rules.MaybeAdvance(old(Abs()), at) && Valid()
    {
      hide Rules.Tally, Rules.StartTurn, Rules.StartRound, Rules.AllConnectedAcked, Rules.AllConnectedVoted;
      if phase == Voting || phase == RunoffVoting {
        var voted := AllConnectedVoted();
        if voted { Tally(at); }
      } else if phase == RoleReveal {
        var acked := AllConnectedAcked(false);
        if !acked { return; }
        StartTurn(0, at);
      } else if phase == EliminationReveal {
        var acked := AllConnectedAcked(true);
        if !acked { return; }
        StartRound(at);
      }
    }

    // ----- leaving and being removed -----

    /** `removeAll` */
    method RemoveAll(ids: seq<Id>, status: Status, at: Time)
      requires Valid() && phase != Ended && Rules.MayGo(Abs(), Rules.Elements(ids), status)
      modifies this
      ensures Abs() == Rules.RemoveAll(old(Abs()), Rules.Elements(ids), status, at) && Valid()
    {
      hide Rules.Judge, Rules.Without, Rules.PlayersMove, Rules.ValidSetup, Rules.Elements, Rules.Actives;
      ghost var s := Abs();
      var removedImpostor, removedCurrentTurn := false, false;
      WithoutNobody(s, status);
      NoMembers(ids[..0]);
      var i := 0;
      while i < |ids|
        invariant 0 <= i <= |ids|
        invariant Abs() == Rules.Without(s, Rules.Elements(ids[..i]), status)
        invariant removedImpostor <==> impostor in Rules.Elements(ids[..i])
        invariant removedCurrentTurn <==> s.phase == Hints && Rules.Holder(s) in Rules.Elements(ids[..i])
      {
        NextMember(ids, i);
        WithoutFrame(s, Rules.Elements(ids[..i]), status);
        WithoutTwice(s, Rules.Elements(ids[..i]), ids[i], status);
        removedImpostor := removedImpostor || ids[i] == impostor;
        removedCurrentTurn := removedCurrentTurn || (phase == Hints && order[turn] == ids[i]);
        TakeOut(ids[i], status);
        i := i + 1;
      }
      assert ids[..i] == ids;
      Rules.WithoutKeepsShape(s, Rules.Elements(ids), status);
      WithoutFrame(s, Rules.Elements(ids), status);
      Judge(removedImpostor, removedCurrentTurn, at);
    }

    /** The switch at the end of `removeAll`. */
    method Judge(removedImpostor: bool, removedCurrentTurn: bool, at: Time)
      requires Valid() && phase != Ended
      modifies this
      ensures Abs() == Rules.Judge(old(Abs()), removedImpostor, removedCurrentTurn, at) && Valid()
    {
      hide Rules.End, Rules.MaybeAdvance, Rules.StartTurn, Rules.ActiveCitizens, Rules.ActiveImpostors, Rules.Actives,
        Rules.Elements, Rules.ValidSetup, Rules.Changes;
      var citizens, impostors := CitizensAndImpostors();
      var left := ActiveIDs();
      if removedImpostor {
        End(Citizens, ImpostorGone);
      } else if phase == ImpostorGuess {
      } else if impostors > 0 && impostors >= citizens {
        End(Impostor, ImpostorParity);
      } else if |left| < MIN_PLAYERS_TO_CONTINUE {
        End(NoTeam, NotEnoughPlayers);
      } else if phase == RoleReveal || phase == EliminationReveal || phase == Voting || phase == RunoffVoting {
        MaybeAdvance(at);
      } else if removedCurrentTurn {
        StartTurn(turn + 1, at);
      }
    }

    /** One round of the loop of `removeAll`: the player's status, votes and candidacy. */
    method TakeOut(id: Id, status: Status)
      requires id in players
      modifies `players, `votes, `candidates
      ensures Abs() == Rules.Without(old(Abs()), {id}, status)
    {
      hide Rules.Drop, Rules.Without;
      ghost var s := Abs();
      DropVotes(id);
      SetStatus(id, status);
      candidates := Rules.Drop(candidates, {id});
      WithoutOne(s, id, status);
    }

    method SetStatus(id: Id, status: Status)
      requires id in players
      modifies `players
      ensures players == old(players)[id := old(players)[id].(status := status)]
    {
      players := players[id := players[id].(status := status)];
    }

    /** The inner loop of `removeAll`: the votes by or for a player are deleted. */
    method DropVotes(id: Id)
      modifies `votes
      ensures votes == map v | v in old(votes) && v !in {id} && old(votes)[v] !in {id} :: old(votes)[v]
    {
      ghost var before := votes;
      var todo := votes.Keys;
      while todo != {}
        invariant todo <= before.Keys
        invariant votes == map v | v in before && (v in todo || (v != id && before[v] != id)) :: before[v]
      {
        var voter :| voter in todo;
        todo := todo - {voter};
        if voter == id || votes[voter] == id { votes := votes - {voter}; }
      }
    }

    // ----- commands -----

    method ConfirmRole(id: Id, now: Time) returns (reply: Reply)
      requires Valid()
      modifies this
      ensures (Abs(), reply) == Commands.ActConfirmRole(Clock.Tick(old(Abs()), now), id, now) && Valid()
    {
      hide Clock.Tick, Rules.MaybeAdvance, Rules.Wf, Commands.Bump;
      Tick(now);
      reply := ActivePlayer(id);
      if reply != Ok { return; }
      if phase != RoleReveal { return Err(WrongPhase); }
      if !players[id].confirmed {
        Acknowledge(id);
        Advance(now);
      }
    }

    method ContinueAfterElimination(id: Id, now: Time) returns (reply: Reply)
      requires Valid()
      modifies this
      ensures (Abs(), reply) == Commands.ActContinueAfterElimination(Clock.Tick(old(Abs()), now), id, now) && Valid()
    {
      hide Clock.Tick, Rules.MaybeAdvance, Rules.Wf, Commands.Bump;
      Tick(now);
      if phase != EliminationReveal { return Err(WrongPhase); }
      reply := Watcher(id);
      if reply != Ok { return; }
      if !players[id].confirmed {
        Acknowledge(id);
        Advance(now);
      }
    }

    method SubmitHint(id: Id, text: string, now: Time) returns (reply: Reply)
      requires Valid()
      modifies this
      ensures (Abs(), reply) == Commands.ActSubmitHint(Clock.Tick(old(Abs()), now), id, text, now) && Valid()
    {
      hide Clock.Tick, Rules.Wf, Commands.HintVerdict, Commands.Tidy;
      Tick(now);
      var tidy := Commands.Tidy(policy.alphabet, text);
      reply := CheckHint(id, tidy);
      if reply != Ok { return; }
      HoldHint(id, tidy, now);
    }

    /** The tail of `SubmitHint`: the hint goes on the board and is held. */
    method HoldHint(id: Id, text: string, now: Time)
      modifies this
      ensures var s := old(Abs());
        var t := s.(hints := s.hints + [Hint(id, text, s.round, false, s.pending)], pending := map[]);
        Abs() == Commands.Bump(Rules.SetPhase(t, HintBreak, now, s.setup.cfg.hintBreak))
    {
      FileHint(Hint(id, text, round, false, map[]));
      SetPhase(HintBreak, now, cfg.hintBreak);
      version := version + 1;
    }

    /** The checks of `SubmitHint`. */
    method CheckHint(id: Id, text: string) returns (reply: Reply)
      requires Valid()
      ensures reply == Commands.HintVerdict(Abs(), id, text)
    {
      hide Rules.ValidSetup, Rules.Elements, Rules.Actives, Words.Normalize, Words.ContainsSecret, Words.SameHint;
      SetupComplete(Abs());
      var ab := policy.alphabet;
      reply := ActivePlayer(id);
      if reply != Ok { return; }
      if phase != Hints { return Err(WrongPhase); }
      if order[turn] != id || reconnecting { return Err(NotYourTurn); }
      var normal := Words.NormalizeWord(ab, text);
      if text == "" || normal == "" { return Err(HintEmpty); }
      if exists c | c in text :: ab.isSpace(c) { return Err(HintNotOneWord); }
      if |text| > MAX_HINT_RUNES { return Err(HintTooLong); }
      if policy.hintInappropriate.value(text) { return Err(HintInappropriate); }
      if id != impostor {
        var leaks := Words.HintContainsSecret(ab, text, secret);
        if leaks { return Err(HintContainsSecret); }
      }
      var i := 0;
      while i < |hints|
        invariant 0 <= i <= |hints|
        invariant forall k :: 0 <= k < i && !hints[k].missing ==> !Words.SameHint(ab, text, hints[k].text)
      {
        if !hints[i].missing && Words.SameHint(ab, text, hints[i].text) { return Err(HintDuplicate); }
        i := i + 1;
      }
    }

    method React(id: Id, hintIndex: int, reaction: string, now: Time) returns (reply: Reply)
      requires Valid()
      modifies this
      ensures (Abs(), reply) == Commands.ActReact(Clock.Tick(old(Abs()), now), id, hintIndex, reaction) && Valid()
    {
      hide Clock.Tick, Rules.Wf, Commands.Anchor, Commands.Added, Commands.HasHintThisRound;
      Tick(now);
      SetupComplete(Abs());
      reply := Watcher(id);
      if reply != Ok { return; }
      if phase == RoleReveal || phase == Ended { return Err(WrongPhase); }
      if !policy.validReaction.value(reaction) { return Err(InvalidReaction); }
      var k := hintIndex;
      var given := HasHintThisRound();
      var waits := phase == Hints && !given;
      if !waits && 0 <= k < |hints| {
        var from := hints[k].round;
        k := LastGiven(k, from);
        if k < 0 || hints[k].round != from {
          if phase != Hints || from != round { return Err(InvalidHint); }
          waits := true;
        }
      }
      if waits {
        KeepReaction(reaction);
        return;
      }
      if k < 0 || k >= |hints| { return Err(InvalidHint); }
      AddReaction(k, reaction);
    }

    /** A reaction that waits for the first hint of the round. */
    method KeepReaction(reaction: string)
      modifies `pending, `version
      ensures Abs() == Commands.Bump(old(Abs()).(pending := Commands.Added(old(pending), reaction)))
    {
      pending := Commands.Added(pending, reaction);
      version := version + 1;
    }

    /** A reaction to the hint at `k`. */
    method AddReaction(k: nat, reaction: string)
      requires k < |hints|
      modifies `hints, `version
      ensures var h := old(hints)[k];
        Abs() == Commands.Bump(old(Abs()).(hints := old(hints)[k := h.(reactions := Commands.Added(h.reactions,
          reaction))]))
    {
      hints := hints[k := hints[k].(reactions := Commands.Added(hints[k].reactions, reaction))];
      version := version + 1;
    }

    method HasHintThisRound() returns (has: bool)
      ensures has <==> Commands.HasHintThisRound(Abs())
    {
      var i := 0;
      while i < |hints|
        invariant 0 <= i <= |hints|
        invariant forall k :: 0 <= k < i ==> hints[k].round != round
      {
        if hints[i].round == round { return true; }
        i := i + 1;
      }
      return false;
    }

    /** The loop of `React`: back over the missing hints of one round. */
    method LastGiven(from: int, round: int) returns (k: int)
      requires 0 <= from < |hints|
      ensures k == Commands.Anchor(hints, from, round)
    {
      k := from;
      while k >= 0 && hints[k].missing && hints[k].round == round
        invariant -1 <= k <= from
        invariant Commands.Anchor(hints, from, round) == Commands.Anchor(hints, k, round)
      {
        k := k - 1;
      }
    }

    method Vote(id: Id, target: Id, now: Time) returns (reply: Reply)
      requires Valid()
      modifies this
      ensures (Abs(), reply) == Commands.ActVote(Clock.Tick(old(Abs()), now), id, target, now) && Valid()
    {
      hide Clock.Tick, Rules.MaybeAdvance, Rules.Wf, Commands.Bump;
      Tick(now);
      reply := ActivePlayer(id);
      if reply != Ok { return; }
      if phase != Voting && phase != RunoffVoting { return Err(WrongPhase); }
      if id == target { return Err(SelfVote); }
      if target !in candidates { return Err(InvalidVoteTarget); }
      Choose(id, target);
      Advance(now);
    }

    /** The end of a command that may complete a phase. */
    method Advance(now: Time)
      requires Valid() && phase != Ended
      modifies this
      ensures Abs() == Commands.Bump(Rules.MaybeAdvance(old(Abs()), now)) && Valid()
    {
      hide Rules.MaybeAdvance, Rules.ValidSetup, Rules.Elements, Rules.Actives;
      MaybeAdvance(now);
      version := version + 1;
    }

    /** The fields of the vote that `Vote` sets. */
    method Choose(id: Id, target: Id)
      requires Valid()
      modifies `votes, `voteCast
      ensures Abs() == old(Abs()).(votes := old(votes)[id := target], voteCast := true) && Valid()
    {
      hide Rules.ValidSetup, Rules.Elements, Rules.Actives;
      votes := votes[id := target];
      voteCast := true;
    }

    method SubmitGuess(id: Id, guess: string, now: Time) returns (reply: Reply)
      requires Valid()
      modifies this
      ensures (Abs(), reply) == Commands.ActSubmitGuess(Clock.Tick(old(Abs()), now), id, guess) && Valid()
    {
      hide Clock.Tick, Rules.End, Rules.Shape, Rules.Actives, Rules.Elements, Words.Accepts;
      Tick(now);
      reply := ActivePlayer(id);
      if reply != Ok { return; }
      if phase != ImpostorGuess { return Err(WrongPhase); }
      if id != impostor { return Err(NotImpostor); }
      var aliases := [];
      if policy.guessAliases.Some? { aliases := policy.guessAliases.value(secret); }
      var matches := Words.GuessMatches(policy.alphabet, guess, secret, aliases);
      if matches {
        End(Impostor, ImpostorGuessedWord);
      } else {
        End(Citizens, ImpostorGuessWrong);
      }
      version := version + 1;
    }

    method Disconnect(id: Id, now: Time) returns (reply: Reply)
      requires Valid()
      modifies this
      ensures (Abs(), reply) == Commands.ActDisconnect(Clock.Tick(old(Abs()), now), id, now) && Valid()
    {
      hide Clock.Tick, Rules.MaybeAdvance, Rules.AwaitReconnect, Rules.Wf, Commands.Dropped, Commands.Bump;
      Tick(now);
      reply := Watcher(id);
      if reply != Ok || !players[id].connected { return; }
      DropLine(id, now);
      LineDropped(id, now);
    }

    /** The switch at the end of `Disconnect`. */
    method LineDropped(id: Id, now: Time)
      requires Valid()
      modifies this
      ensures var t := old(Abs());
        Abs() == Commands.Bump(
          if t.phase == Hints && Rules.Holder(t) == id then Rules.AwaitReconnect(t, now)
          else if t.phase == RoleReveal || t.phase == EliminationReveal || Rules.InVote(t.phase)
            then Rules.MaybeAdvance(t, now)
          else t)
    {
      hide Rules.MaybeAdvance, Rules.AwaitReconnect, Rules.Wf, Rules.Changes;
      TurnIsSeated(Abs());
      if phase == Hints && order[turn] == id {
        AwaitReconnect(now);
      } else if phase == RoleReveal || phase == EliminationReveal || phase == Voting || phase == RunoffVoting {
        MaybeAdvance(now);
      }
      version := version + 1;
    }

    /** The player's own fields in `Disconnect`. */
    method DropLine(id: Id, now: Time)
      requires Valid() && id in players
      modifies `players
      ensures Abs() == Commands.Dropped(old(Abs()), id, now)
    {
      hide Rules.ValidSetup, Rules.Elements, Rules.Actives;
      players := players[id := players[id].(connected := false)];
      if phase != Ended && players[id].status == Active {
        players := players[id := players[id].(strikeAt := Some(now + cfg.reconnect))];
      }
    }

    method Reconnect(id: Id, now: Time) returns (reply: Reply)
      requires Valid()
      modifies this
      ensures (Abs(), reply) == Commands.ActReconnect(Clock.Tick(old(Abs()), now), id, now) && Valid()
    {
      hide Clock.Tick, Rules.MaybeAdvance, Rules.Wf, Commands.Returned, Commands.Bump;
      Tick(now);
      reply := Watcher(id);
      if reply != Ok || players[id].connected { return; }
      Restore(id);
      LineRestored(id, now);
    }

    /** The end of `Reconnect`. */
    method LineRestored(id: Id, now: Time)
      requires Valid() && id in players
      modifies this
      ensures var t := old(Abs());
        Abs() == Commands.Bump(
          if t.phase == Hints && t.players[id].status == Active && Rules.Holder(t) == id
          then t.(reconnecting := false, deadline := t.turnDeadline)
          else if Rules.InVote(t.phase) then Rules.MaybeAdvance(t, now)
          else t)
    {
      hide Rules.MaybeAdvance, Rules.Wf;
      TurnIsSeated(Abs());
      if phase == Hints && players[id].status == Active && order[turn] == id {
        ResumeTurn();
      }
      if phase == Voting || phase == RunoffVoting {
        MaybeAdvance(now);
      }
      version := version + 1;
    }

    /** A waiting turn goes on, on the clock it started with. */
    method ResumeTurn()
      requires Valid() && phase == Hints
      modifies `reconnecting, `deadline
      ensures Abs() == old(Abs()).(reconnecting := false, deadline := turnDeadline)
    {
      reconnecting := false;
      deadline := turnDeadline;
    }

    /** The player's own fields in `Reconnect`. */
    method Restore(id: Id)
      requires Valid() && id in players
      modifies `players
      ensures Abs() == Commands.Returned(old(Abs()), id) && Valid()
      ensures id in players && players[id].status == old(players[id].status)
    {
      hide Rules.Elements, Rules.ValidSetup, Rules.Actives;
      players := players[id := players[id].(connected := true, strikeAt := None)];
    }

    method Leave(id: Id, now: Time) returns (reply: Reply)
      requires Valid()
      modifies this
      ensures (Abs(), reply) == Commands.ActLeave(Clock.Tick(old(Abs()), now), id, now) && Valid()
    {
      hide Clock.Tick, Rules.RemoveAll, Rules.ValidSetup, Rules.Elements, Rules.Actives;
      Tick(now);
      if id !in players { return Err(UnknownPlayer); }
      if phase == Ended || (players[id].status != Active && players[id].status != Eliminated) { return Ok; }
      OneMember(id);
      RemoveAll([id], Left, now);
      version := version + 1;
      return Ok;
    }

    /** Any of the nine commands. */
    method Do(now: Time, c: Command) returns (reply: Reply)
      requires Valid()
      modifies this
      ensures (Abs(), reply) == Commands.Apply(old(Abs()), now, c) && Valid()
    {
      hide Clock.Tick, Rules.Wf, Commands.ActConfirmRole, Commands.ActSubmitHint, Commands.ActReact, Commands.ActVote,
        Commands.ActSubmitGuess, Commands.ActContinueAfterElimination, Commands.ActDisconnect, Commands.ActReconnect,
        Commands.ActLeave;
      match c
      case ConfirmRole(id) => reply := ConfirmRole(id, now);
      case SubmitHint(id, text) => reply := SubmitHint(id, text, now);
      case React(id, k, reaction) => reply := React(id, k, reaction, now);
      case Vote(id, target) => reply := Vote(id, target, now);
      case SubmitGuess(id, guess) => reply := SubmitGuess(id, guess, now);
      case ContinueAfterElimination(id) => reply := ContinueAfterElimination(id, now);
      case Disconnect(id) => reply := Disconnect(id, now);
      case Reconnect(id) => reply := Reconnect(id, now);
      case Leave(id) => reply := Leave(id, now);
    }

    method ActivePlayer(id: Id) returns (reply: Reply)
      ensures reply == Commands.ActivePlayer(Abs(), id)
    {
      if id !in players { return Err(UnknownPlayer); }
      if players[id].status != Active { return Err(PlayerNotActive); }
      return Ok;
    }

    method Watcher(id: Id) returns (reply: Reply)
      ensures reply == Commands.Watcher(Abs(), id)
    {
      if id !in players { return Err(UnknownPlayer); }
      if players[id].status != Active && players[id].status != Eliminated { return Err(PlayerNotActive); }
      return Ok;
    }

    method Acknowledge(id: Id)
      requires Valid() && id in players
      modifies `players
      ensures Abs() == Commands.Confirm(old(Abs()), id) && Valid() && phase == old(phase)
    {
      hide Rules.ValidSetup, Rules.Elements;
      players := players[id := players[id].(confirmed := true)];
      Commands.SameActives(old(players), id, players[id]);
    }
  }

  ghost predicate MustAck(p: Player, watchers: bool) {
    p.connected && if watchers then p.Watching() else p.status == Active
  }

  lemma VotersAre(s: State)
    ensures forall id <- s.players :: id in Rules.Voters(s) <==>
      s.players[id].status == Active && Rules.CanVote(s.candidates, id)
    ensures Rules.Voters(s) - s.players.Keys == {}
  {
    hide Rules.CanVote;
  }

  lemma OneLess(all: set<Id>, todo: set<Id>, id: Id)
    requires id in todo
    ensures |all - (todo - {id})| == |all - todo| + if id in all then 1 else 0
    ensures todo == {id} ==> all - (todo - {id}) == all
  {
    if id in all {
      assert all - (todo - {id}) == (all - todo) + {id};
    } else {
      assert all - (todo - {id}) == all - todo;
    }
  }

  lemma NoMembers(xs: seq<Id>)
    ensures xs == [] ==> Rules.Elements(xs) == {}
  {
  }

  lemma MemberOf(xs: seq<Id>)
    requires xs != []
    ensures Rules.Elements(xs) != {}
  {
    assert xs[0] in Rules.Elements(xs);
  }

  lemma OneMember(x: Id)
    ensures Rules.Elements([x]) == {x}
  {
  }

  lemma TurnIsSeated(s: State)
    requires Rules.Wf(s)
    ensures s.turn < |s.setup.order| && (s.phase == Hints ==> s.turnDeadline.Some?)
  {
  }

  lemma SeatsAreNamed(s: State)
    requires Rules.Wf(s)
    ensures "" !in s.setup.order
  {
  }

  lemma SetupComplete(s: State)
    requires Rules.Wf(s)
    ensures s.setup.policy.Complete()
  {
  }

  lemma AddMember(xs: seq<Id>, x: Id)
    ensures Rules.Elements(xs + [x]) == Rules.Elements(xs) + {x}
  {
    Rules.ElementsAppend(xs, [x]);
  }

  lemma NextMember(xs: seq<Id>, i: nat)
    requires i < |xs|
    ensures xs[i] in Rules.Elements(xs) && Rules.Elements(xs[..i + 1]) == Rules.Elements(xs[..i]) + {xs[i]}
  {
    assert xs[..i + 1] == xs[..i] + [xs[i]];
    AddMember(xs[..i], xs[i]);
  }

  lemma EveryoneSeated(s: State)
    requires Rules.Wf(s)
    ensures s.players.Keys == Rules.Elements(s.setup.order)
  {
  }

  lemma CountNext(done: set<Id>, id: Id, impostor: Id)
    requires id !in done
    ensures |done + {id} - {impostor}| == |done - {impostor}| + if id == impostor then 0 else 1
  {
    if id == impostor {
      assert done + {id} - {impostor} == done - {impostor};
    } else {
      assert done + {id} - {impostor} == (done - {impostor}) + {id};
    }
  }

  lemma Filed(s: State)
    requires Rules.Live(s)
    ensures Rules.Live(Rules.FileVotes(s))
  {
    hide Rules.ValidSetup, Rules.Actives, Rules.Elements;
  }

  /** What `tally` makes of the leaders of a vote that is not abandoned. */
  ghost function Verdict(t: State, top: seq<Id>, most: nat, at: Time): State
    requires Rules.Live(t) && t.setup.cfg.Positive()
    requires Rules.Elements(top) <= Rules.Actives(t.players) && (|top| == 1 ==> top[0] in Rules.Actives(t.players))
  {
    if |top| == 1 && top[0] == t.setup.impostor then Rules.SetPhase(t, ImpostorGuess, at, t.setup.cfg.guess)
    else if |top| == 1 then Rules.Eliminate(t, top[0], at)
    else if |top| > 1 && t.phase == Voting then Rules.StartVoting(t, RunoffVoting, top, at, t.setup.cfg.runoffVote)
    else if |top| > 1 then Rules.ShowElimination(t.(tied := top, tiedVotes := most), "", at)
    else Rules.StartRound(t, at)
  }

  /** `Rules.Tally` in its two halves. */
  lemma TallyCases(s: State, at: Time)
    requires Rules.Live(s) && Rules.InVote(s.phase)
    ensures var t := Rules.FileVotes(s);
      var top := Rules.Top(t.candidates, t.votes);
      && Rules.Live(t) && t.setup.cfg.Positive() && (|top| == 1 ==> top[0] in Rules.Actives(t.players))
      && Rules.Elements(top) <= Rules.Actives(t.players)
      && Rules.Tally(s, at) ==
        if t.votes == map[] && !t.voteCast && t.silentVotes >= MAX_SILENT_VOTES then Rules.End(t, NoTeam, Abandoned)
        else Verdict(t, top, Rules.Most(t.candidates, t.votes), at)
  {
    hide Rules.Eliminate, Rules.StartVoting, Rules.ShowElimination, Rules.StartRound, Rules.End, Rules.Most,
      Rules.Top, Rules.Actives, Rules.Elements, Rules.Changes;
    Rules.DurationsPositive(s.setup);
    Filed(s);
    var t := Rules.FileVotes(s);
    if |Rules.Top(t.candidates, t.votes)| == 1 {
      Rules.TopIsCandidate(t.candidates, t.votes);
    }
  }

  ghost function StruckAmong(s: State, at: Time, ids: set<Id>): map<Id, Player> {
    map id | id in s.players ::
      if id in Clock.StruckAt(s, at) && id in ids
      then s.players[id].(strikeAt := None, disconnects := s.players[id].disconnects + 1)
      else s.players[id]
  }

  lemma StruckAmongNext(s: State, at: Time, i: nat)
    requires Rules.Wf(s) && i < |s.setup.order|
    ensures var id, done := s.setup.order[i], Rules.Elements(s.setup.order[..i]);
      && Rules.Elements(s.setup.order[..i + 1]) == done + {id}
      && id in s.players && id in StruckAmong(s, at, done) && StruckAmong(s, at, done)[id] == s.players[id]
      && StrikeAdds(s, at, done, id)
  {
    hide Clock.OutAt, StrikeAdds;
    assert s.setup.order[i] in Rules.Elements(s.setup.order);
    NextElement(s.setup.order, i);
    StrikeAdded(s, at, Rules.Elements(s.setup.order[..i]), s.setup.order[i]);
  }

  /** Adding one player to those looked at. */
  ghost predicate StrikeAdds(s: State, at: Time, done: set<Id>, id: Id) {
    id in s.players &&
    var p, now, next := s.players[id], StruckAmong(s, at, done), StruckAmong(s, at, done + {id});
    var q := p.(strikeAt := None, disconnects := p.disconnects + 1);
    var out, more := Clock.OutAt(s, at) * done, Clock.OutAt(s, at) * (done + {id});
    if p.status == Active && p.strikeAt == Some(at)
    then next == now[id := q] && more == out + if q.disconnects >= MAX_DISCONNECTS then {id} else {}
    else next == now && more == out
  }

  lemma StrikeAdded(s: State, at: Time, done: set<Id>, id: Id)
    requires id in s.players && id !in done
    ensures StrikeAdds(s, at, done, id)
  {
    assert id in Clock.StruckAt(s, at) <==> s.players[id].status == Active && s.players[id].strikeAt == Some(at);
  }

  lemma EveryoneStruck(s: State, at: Time)
    requires Rules.Wf(s)
    ensures StruckAmong(s, at, Rules.Elements(s.setup.order)) == Clock.Strike(s, at).players
    ensures StruckAmong(s, at, {}) == s.players
    ensures Clock.Strike(s, at) == s.(players := Clock.Strike(s, at).players)
    ensures Clock.OutAt(s, at) * Rules.Elements(s.setup.order) == Clock.OutAt(s, at)
  {
  }

  lemma NextElement(xs: seq<Id>, i: nat)
    requires Rules.Distinct(xs) && i < |xs|
    ensures xs[i] !in Rules.Elements(xs[..i]) && Rules.Elements(xs[..i + 1]) == Rules.Elements(xs[..i]) + {xs[i]}
  {
    assert xs[..i + 1] == xs[..i] + [xs[i]];
    Rules.ElementsAppend(xs[..i], [xs[i]]);
  }

  lemma {:induction false} ActiveIdsSnoc(xs: seq<Id>, x: Id, players: map<Id, Player>)
    ensures Rules.ActiveIds(xs + [x], players) ==
      Rules.ActiveIds(xs, players) + if x in Rules.Actives(players) then [x] else []
  {
    if xs == [] {
      assert [x][1..] == [];
    } else {
      ActiveIdsSnoc(xs[1..], x, players);
      assert (xs + [x])[1..] == xs[1..] + [x];
    }
  }

  function CountOf(counts: map<Id, nat>, c: Id): nat { if c in counts then counts[c] else 0 }

  /** `counts` holds the number of votes for each candidate. */
  ghost predicate Counted(counts: map<Id, nat>, votes: map<Id, Id>) {
    forall c :: CountOf(counts, c) == Rules.VotesFor(votes, c)
  }

  lemma NoVotes()
    ensures Counted(map[], map[])
  {
    forall c ensures CountOf(map[], c) == Rules.VotesFor(map[], c) {
      assert Rules.VotersFor(map[], c) == {};
    }
  }

  lemma OneMoreVote(counts: map<Id, nat>, votes: map<Id, Id>, voter: Id, target: Id)
    requires voter !in votes && Counted(counts, votes)
    ensures Counted(counts[target := CountOf(counts, target) + 1], votes[voter := target])
  {
    hide Rules.VotesFor;
    var more, tally := votes[voter := target], counts[target := CountOf(counts, target) + 1];
    forall c ensures CountOf(tally, c) == Rules.VotesFor(more, c) {
      assert CountOf(counts, c) == Rules.VotesFor(votes, c);
      OneMoreVoteFor(votes, voter, target, c);
    }
  }

  lemma OneMoreVoteFor(votes: map<Id, Id>, voter: Id, target: Id, c: Id)
    requires voter !in votes
    ensures Rules.VotesFor(votes[voter := target], c) == Rules.VotesFor(votes, c) + if c == target then 1 else 0
  {
    var more := votes[voter := target];
    if c == target {
      assert Rules.VotersFor(more, c) == Rules.VotersFor(votes, c) + {voter};
    } else {
      assert Rules.VotersFor(more, c) == Rules.VotersFor(votes, c);
    }
  }

  lemma {:induction false} MostSnoc(xs: seq<Id>, x: Id, votes: map<Id, Id>)
    ensures var n, m := Rules.VotesFor(votes, x), Rules.Most(xs, votes);
      Rules.Most(xs + [x], votes) == if n > m then n else m
  {
    hide Rules.VotesFor;
    if xs == [] {
      assert xs + [x] == [x] && [x][1..] == [];
    } else {
      MostSnoc(xs[1..], x, votes);
      assert (xs + [x])[1..] == xs[1..] + [x];
    }
  }

  lemma {:induction false} WithCountSnoc(xs: seq<Id>, x: Id, votes: map<Id, Id>, n: nat)
    ensures Rules.WithCount(xs + [x], votes, n) ==
      Rules.WithCount(xs, votes, n) + if Rules.VotesFor(votes, x) == n then [x] else []
  {
    hide Rules.VotesFor;
    if xs == [] {
      assert xs + [x] == [x] && [x][1..] == [];
    } else {
      WithCountSnoc(xs[1..], x, votes, n);
      assert (xs + [x])[1..] == xs[1..] + [x];
    }
  }

  lemma {:induction false} NobodyAboveMost(xs: seq<Id>, votes: map<Id, Id>, n: nat)
    requires n > Rules.Most(xs, votes)
    ensures Rules.WithCount(xs, votes, n) == []
  {
    hide Rules.VotesFor;
    if xs != [] { NobodyAboveMost(xs[1..], votes, n); }
  }

  lemma {:induction false} DropNobody(xs: seq<Id>)
    ensures Rules.Drop(xs, {}) == xs
  {
    if xs != [] { DropNobody(xs[1..]); }
  }

  lemma {:induction false} DropTwice(xs: seq<Id>, a: set<Id>, b: set<Id>)
    ensures Rules.Drop(Rules.Drop(xs, a), b) == Rules.Drop(xs, a + b)
  {
    if xs != [] {
      DropTwice(xs[1..], a, b);
      if xs[0] !in a {
        assert ([xs[0]] + Rules.Drop(xs[1..], a))[1..] == Rules.Drop(xs[1..], a);
      }
    }
  }

  lemma WithoutNobody(s: State, status: Status)
    ensures Rules.Without(s, {}, status) == s
  {
    DropNobody(s.candidates);
    var t := Rules.Without(s, {}, status);
    assert t.players == s.players && t.votes == s.votes;
  }

  lemma WithoutTwice(s: State, gone: set<Id>, id: Id, status: Status)
    ensures Rules.Without(Rules.Without(s, gone, status), {id}, status) == Rules.Without(s, gone + {id}, status)
  {
    DropTwice(s.candidates, gone, {id});
    var t, r := Rules.Without(Rules.Without(s, gone, status), {id}, status), Rules.Without(s, gone + {id}, status);
    assert t.players == r.players && t.votes == r.votes;
  }

  lemma WithoutOne(s: State, id: Id, status: Status)
    requires id in s.players
    ensures Rules.Without(s, {id}, status) ==
      s.(players := s.players[id := s.players[id].(status := status)],
         votes := map v | v in s.votes && v !in {id} && s.votes[v] !in {id} :: s.votes[v],
         candidates := Rules.Drop(s.candidates, {id}))
  {
    hide Rules.Drop;
    assert Rules.Without(s, {id}, status).players == s.players[id := s.players[id].(status := status)];
  }

  lemma WithoutFrame(s: State, gone: set<Id>, status: Status)
    ensures var t := Rules.Without(s, gone, status);
      && t == s.(players := t.players, votes := t.votes, candidates := t.candidates)
      && t.players.Keys == s.players.Keys
  {
  }
}
