/**
 * The timers of a match: `nextDeadline`, the work of one expired timer, and `Tick`.
 * Main results: ticks compose (`TickComposes`), a tick settles (`TickSettles`), works only
 * when due (`TickBeforeDeadline`, `TickAtDeadline`), and ends.
 */
module MatchClock {
  import opened Basics
  import opened MatchTypes
  import opened MatchRules

  ghost predicate Pending(players: map<Id, Player>, id: Id) {
    id in players && players[id].status == Active && players[id].strikeAt.Some?
  }

  ghost function PendingStrikes(players: map<Id, Player>): set<Id> {
    set id | id in players && Pending(players, id)
  }

  /** The first strike due among the players of `order` who are active and away. */
  ghost function EarliestStrike(order: seq<Id>, players: map<Id, Player>): (r: Option<Time>)
    ensures r.None? ==> forall id <- order :: !Pending(players, id)
    ensures r.Some? ==> exists id <- order :: Pending(players, id) && players[id].strikeAt == r
    ensures r.Some? ==> forall id <- order :: Pending(players, id) ==> r.value <= players[id].strikeAt.value
  {
    if order == [] then None
    else
      var rest := EarliestStrike(order[1..], players);
      if Pending(players, order[0]) && (rest.None? || players[order[0]].strikeAt.value < rest.value)
      then players[order[0]].strikeAt
      else rest
  }

  datatype Timer = Idle | StrikeDue(at: Time) | PhaseDue(at: Time)

  /** `nextDeadline`: a strike wins a tie with the phase timer. */
  ghost function NextTimer(s: State): Timer
    requires Wf(s)
  {
    if s.phase == Ended then Idle
    else
      var strike := EarliestStrike(s.setup.order, s.players);
      if strike.Some? && strike.value <= s.deadline.value then StrikeDue(strike.value)
      else PhaseDue(s.deadline.value)
  }

  /** `Deadline` */
  ghost function Deadline(s: State): Option<Time>
    requires Wf(s)
  {
    if NextTimer(s).Idle? then None else Some(NextTimer(s).at)
  }

  ghost function StruckAt(s: State, at: Time): set<Id> {
    set id | id in s.players && Pending(s.players, id) && s.players[id].strikeAt == Some(at)
  }

  /** The players whose third strike falls at `at`. */
  ghost function OutAt(s: State, at: Time): set<Id> {
    set id | id in StruckAt(s, at) && s.players[id].disconnects + 1 >= MAX_DISCONNECTS
  }

  /** The strike loop of `Tick`: every drop that becomes a strike at `at` counts. */
  ghost function Strike(s: State, at: Time): State {
    s.(players := map id | id in s.players ::
         if id in StruckAt(s, at)
         then s.players[id].(strikeAt := None, disconnects := s.players[id].disconnects + 1)
         else s.players[id])
  }

  /** One strike moment of `Tick`: all strikes of the moment count, then all third strikes go at once. */
  ghost function CountStrikes(s: State, at: Time): (r: State)
    requires Live(s)
    ensures Wf(r) && Changes(Strike(s, at), r, at)
    ensures OutAt(s, at) <= r.players.Keys && forall id <- OutAt(s, at) :: r.players[id].status == Removed
  {
    var t := Strike(s, at);
    StrikeKeepsShape(s, at);
    if OutAt(s, at) == {} then
      t
    else
      var r := RemoveAll(t, OutAt(s, at), Removed, at);
      r
  }

  lemma StrikeKeepsShape(s: State, at: Time)
    requires Wf(s)
    ensures Wf(Strike(s, at)) && MayGo(Strike(s, at), OutAt(s, at), Removed)
    ensures PlayersMove(Strike(s, at).players, Strike(s, at).players)
  {
    assert Actives(Strike(s, at).players) == Actives(s.players);
  }

  /** The work of the next timer. */
  ghost function Step(s: State): (r: State)
    requires Live(s)
    ensures Wf(r) && r.setup == s.setup && r.version == s.version + 1
  {
    match NextTimer(s)
    case StrikeDue(at) => var t := CountStrikes(s, at); t.(version := s.version + 1)
    case PhaseDue(at) => var t := Expire(s, at); t.(version := s.version + 1)
  }

  ghost predicate Due(s: State, now: Time)
    requires Wf(s)
  {
    !NextTimer(s).Idle? && NextTimer(s).at <= now
  }

  ghost function Overdue(s: State, now: Time): nat {
    if s.deadline.Some? && s.deadline.value <= now then now - s.deadline.value + 1 else 0
  }

  /** A timer's work uses up a strike or moves the phase deadline on. */
  lemma StepProgress(s: State, now: Time)
    requires Wf(s) && Due(s, now)
    ensures PendingStrikes(Step(s).players) <= PendingStrikes(s.players)
    ensures PendingStrikes(Step(s).players) == PendingStrikes(s.players) ==> Overdue(Step(s), now) < Overdue(s, now)
  {
    match NextTimer(s)
    case StrikeDue(at) =>
      var r := CountStrikes(s, at);
      var id :| id in s.setup.order && Pending(s.players, id) && s.players[id].strikeAt == Some(at);
      assert id in Elements(s.setup.order) && id in PendingStrikes(s.players) && id in StruckAt(s, at);
      assert id !in PendingStrikes(Step(s).players);
    case PhaseDue(at) =>
      var r := Expire(s, at);
  }

  /** `Tick` */
  ghost function Tick(s: State, now: Time): (r: State)
    requires Wf(s)
    ensures Wf(r) && r.setup == s.setup && s.version <= r.version
    ensures !Due(r, now)
    decreases PendingStrikes(s.players), Overdue(s, now)
  {
    if Due(s, now) then StepProgress(s, now); Tick(Step(s), now) else s
  }

  /** Where the timers are not yet due, nothing is left to do at `now`. */
  ghost predicate Settled(s: State, now: Time)
    requires Wf(s)
  {
    Deadline(s).None? || now < Deadline(s).value
  }

  lemma TickSettles(s: State, now: Time)
    requires Wf(s)
    ensures Settled(Tick(s, now), now)
  {
  }

  lemma TickBeforeDeadline(s: State, now: Time)
    requires Wf(s) && Settled(s, now)
    ensures Tick(s, now) == s
  {
  }

  lemma TickAtDeadline(s: State, now: Time)
    requires Wf(s) && !Settled(s, now)
    ensures s.version < Tick(s, now).version
  {
    StepProgress(s, now);
  }

  /** Late, early and repeated ticks do not matter: only the last moment counts. */
  lemma {:induction false} TickComposes(s: State, t1: Time, t2: Time)
    requires Wf(s) && t1 <= t2
    ensures Tick(Tick(s, t1), t2) == Tick(s, t2)
    decreases PendingStrikes(s.players), Overdue(s, t1)
  {
    if Due(s, t1) {
      StepProgress(s, t1);
      TickComposes(Step(s), t1, t2);
    }
  }
}
