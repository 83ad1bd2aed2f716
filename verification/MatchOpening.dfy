/** Opening a match, and every state that can be reached from there. */
module MatchOpening {
  import opened Basics
  import opened MatchTypes
  import opened MatchRules
  import opened MatchClock
  import opened MatchCommands
  import opened MatchInvariant
  import opened MatchKeeps

  /** `New`: `order` is the shuffled `ids` and `seat` the draw of the impostor; every refusal is `InvalidSetup`. */
  ghost function New(cfg: Config, policy: Policy, ids: seq<Id>, category: string, secret: string,
    order: seq<Id>, seat: nat, now: Time): (r: Option<State>)
    requires multiset(order) == multiset(ids) && (ids != [] ==> seat < |order|)
    ensures r.Some? <==> Playable(cfg, policy, ids, category, secret)
    ensures r.Some? ==> Wf(r.value) && r.value.version == 1 && r.value.phase == RoleReveal
    ensures r.Some? ==> r.value.players.Keys == Elements(ids)
  {
    if Playable(cfg, policy, ids, category, secret) then
      ShuffleKeepsIds(ids, order);
      OpeningWf(cfg, policy, category, secret, order, order[seat], now);
      Some(Opening(cfg, policy, category, secret, order, order[seat], now))
    else None
  }

  lemma {:induction false} DistinctCount<T>(xs: seq<T>, x: T)
    requires Distinct(xs)
    ensures multiset(xs)[x] <= 1
  {
    if xs != [] {
      DistinctCount(xs[1..], x);
      assert xs == [xs[0]] + xs[1..];
      assert forall y :: y in multiset(xs[1..]) <==> y in xs[1..];
    }
  }

  lemma RepeatedCount<T>(xs: seq<T>, i: nat, j: nat)
    requires i < j < |xs| && xs[i] == xs[j]
    ensures 2 <= multiset(xs)[xs[i]]
  {
    assert xs == xs[..j] + [xs[j]] + xs[j + 1..];
    assert xs[i] in xs[..j];
    assert xs[i] in multiset(xs[..j]);
  }

  lemma SameMembers<T>(xs: seq<T>, ys: seq<T>)
    requires multiset(xs) == multiset(ys)
    ensures forall x :: x in xs <==> x in ys
    ensures |xs| == |ys|
  {
    assert |multiset(xs)| == |xs| && |multiset(ys)| == |ys|;
    forall x ensures x in xs <==> x in ys {
      assert x in multiset(xs) <==> x in multiset(ys);
    }
  }

  lemma ShuffleKeepsIds(ids: seq<Id>, order: seq<Id>)
    requires multiset(order) == multiset(ids) && Distinct(ids)
    ensures Distinct(order) && Elements(order) == Elements(ids) && |order| == |ids|
    ensures "" in order <==> "" in ids
  {
    SameMembers(order, ids);
    forall i, j | 0 <= i < j < |order| ensures order[i] != order[j] {
      if order[i] == order[j] {
        RepeatedCount(order, i, j);
        DistinctCount(ids, order[i]);
      }
    }
  }

  lemma {:induction false} DistinctSize<T>(xs: seq<T>)
    requires Distinct(xs)
    ensures |Elements(xs)| == |xs|
  {
    if xs != [] {
      DistinctSize(xs[1..]);
      assert Elements(xs) == Elements(xs[1..]) + {xs[0]};
    }
  }

  lemma OpeningWf(cfg: Config, policy: Policy, category: string, secret: string, order: seq<Id>, impostor: Id,
    now: Time)
    requires cfg.Positive() && policy.Complete() && category != "" && secret != ""
    requires MIN_PLAYERS_TO_START <= |order| <= MAX_PLAYERS && Distinct(order) && "" !in order && impostor in order
    ensures Wf(Opening(cfg, policy, category, secret, order, impostor, now))
  {
  }

  /** A match opens with the whole invariant. */
  lemma NewInv(b: Start)
    requires Legal(b)
    ensures Inv(New(b.cfg, b.policy, b.ids, b.category, b.secret, b.order, b.seat, b.at).value)
  {
    hide Inv;
    ShuffleKeepsIds(b.ids, b.order);
    OpeningInv(b.cfg, b.policy, b.category, b.secret, b.order, b.order[b.seat], b.at);
  }

  lemma OpeningInv(cfg: Config, policy: Policy, category: string, secret: string, order: seq<Id>, impostor: Id,
    now: Time)
    requires cfg.Positive() && policy.Complete() && category != "" && secret != ""
    requires MIN_PLAYERS_TO_START <= |order| <= MAX_PLAYERS && Distinct(order) && "" !in order && impostor in order
    ensures Inv(Opening(cfg, policy, category, secret, order, impostor, now))
  {
    var s := Opening(cfg, policy, category, secret, order, impostor, now);
    assert Actives(s.players) == Elements(order);
    DistinctSize(order);
    ActivesSplit(s);
  }

  /** A match opens as it is dealt: in the shuffled order, the impostor at the drawn seat, everybody there. */
  lemma OpensAsDealt(b: Start)
    requires Legal(b)
    ensures var s := New(b.cfg, b.policy, b.ids, b.category, b.secret, b.order, b.seat, b.at).value;
      && s.setup == Setup(b.cfg, b.policy, b.category, b.secret, b.order, b.order[b.seat])
      && s.phase == RoleReveal && s.deadline == Some(b.at + b.cfg.roleReveal) && s.round == 1 && s.result == None
      && s.hints == [] && s.votes == map[] && s.pending == map[] && s.silentVotes == 0 && s.voteRounds == []
      && (forall id :: id in s.players <==> id in b.ids)
      && forall id <- s.players ::
           var p := s.players[id];
           p.status == Active && p.connected && !p.confirmed && p.disconnects == 0 && p.strikeAt == None
  {
    hide ValidSetup;
  }

  /** What opens a match, and nothing less. */
  lemma OpensExactlyFor(cfg: Config, policy: Policy, ids: seq<Id>, category: string, secret: string, order: seq<Id>,
    seat: nat, now: Time)
    requires multiset(order) == multiset(ids) && (ids != [] ==> seat < |order|)
    ensures New(cfg, policy, ids, category, secret, order, seat, now).Some? <==>
      && 4 <= |ids| <= 8 && (forall i, j :: 0 <= i < j < |ids| ==> ids[i] != ids[j]) && (forall id <- ids :: id != "")
      && category != "" && secret != "" && policy.hintInappropriate.Some? && policy.validReaction.Some?
      && 0 < cfg.hint && 0 < cfg.vote && 0 < cfg.runoffVote && 0 < cfg.guess && 0 < cfg.preVoting
      && 0 < cfg.eliminationReveal && 0 < cfg.hintBreak && 0 < cfg.reconnect && 0 < cfg.roleReveal
  {
  }

  /** Before anything has happened, and only then, a player can be marked offline. */
  lemma MarksOffline(s: State, id: Id)
    requires Wf(s)
    ensures var r := MarkOffline(s, id);
      && (r.1 == Ok <==> id in s.players && s.version == 1)
      && (id !in s.players ==> r.1 == Err(UnknownPlayer))
      && (id in s.players && s.version != 1 ==> r.1 == Err(WrongPhase))
      && r.0 == if r.1 == Ok then s.(players := s.players[id := s.players[id].(connected := false)]) else s
  {
    hide ValidSetup, Elements, Actives;
  }

  lemma MarkOfflineInv(s: State, id: Id)
    requires Wf(s) && Inv(s) && (s.version == 1 ==> s.phase == RoleReveal)
    ensures Inv(MarkOffline(s, id).0)
  {
    hide Consistent, StrikesOk;
    InvIsConsistent(s);
    if id in s.players && s.version == 1 {
      assert StrikesOk(s.players[id]);
      OfflineStrikesOk(s.players[id]);
      OnePlayerTouched(s, id, s.players[id].(connected := false));
    }
  }

  lemma OfflineStrikesOk(p: Player)
    requires StrikesOk(p)
    ensures StrikesOk(p.(connected := false))
  {
  }

  // ----- every reachable match -----

  /** How a match began: the arguments of `New`, the draw, and who was marked offline before play. */
  datatype Start = Start(cfg: Config, policy: Policy, ids: seq<Id>, category: string, secret: string,
    order: seq<Id>, seat: nat, at: Time, offline: seq<Id>)

  ghost predicate Legal(b: Start) {
    && multiset(b.order) == multiset(b.ids) && (b.ids != [] ==> b.seat < |b.order|)
    && Playable(b.cfg, b.policy, b.ids, b.category, b.secret)
  }

  ghost function MarkAll(s: State, offline: seq<Id>): (r: State)
    requires Wf(s)
    ensures Wf(r)
    decreases |offline|
  {
    if offline == [] then s else MarkAll(MarkOffline(s, offline[0]).0, offline[1..])
  }

  lemma {:induction false} MarkAllInv(s: State, offline: seq<Id>)
    requires Wf(s) && Inv(s) && s.version == 1 && s.phase == RoleReveal
    ensures Inv(MarkAll(s, offline))
    decreases |offline|
  {
    hide Inv;
    if offline != [] {
      MarkOfflineInv(s, offline[0]);
      MarkAllInv(MarkOffline(s, offline[0]).0, offline[1..]);
    }
  }

  lemma {:induction false} MarkAllPhase(s: State, offline: seq<Id>)
    requires Wf(s)
    ensures MarkAll(s, offline).phase == s.phase && MarkAll(s, offline).players.Keys == s.players.Keys
    decreases |offline|
  {
    hide Wf;
    if offline != [] { MarkAllPhase(MarkOffline(s, offline[0]).0, offline[1..]); }
  }

  ghost function Begun(b: Start): (r: State)
    requires Legal(b)
    ensures Wf(r)
  {
    MarkAll(New(b.cfg, b.policy, b.ids, b.category, b.secret, b.order, b.seat, b.at).value, b.offline)
  }

  ghost function Next(s: State, e: Event): (r: State)
    requires Wf(s)
    ensures Wf(r)
  {
    match e case Timer(at) => Tick(s, at) case Call(at, c) => Apply(s, at, c).0
  }

  ghost predicate LeadsTo(b: Start, events: seq<Event>, s: State) { Legal(b) && Run(Begun(b), events).0 == s }

  /** Some match, some calls: `s` is what they lead to. */
  ghost predicate Reachable(s: State) { exists b: Start, events: seq<Event> :: LeadsTo(b, events, s) }

  /** Whatever is called, in whatever order and at whatever times, the invariant holds. */
  lemma ReachableInv(s: State)
    requires Reachable(s)
    ensures Inv(s)
  {
    hide Inv, Run, New;
    var b, events :| LeadsTo(b, events, s);
    NewInv(b);
    MarkAllInv(New(b.cfg, b.policy, b.ids, b.category, b.secret, b.order, b.seat, b.at).value, b.offline);
    RunInv(Begun(b), events);
  }

  lemma ReachableBegins(b: Start)
    requires Legal(b)
    ensures Reachable(Begun(b))
  {
    hide Begun, Legal;
    assert LeadsTo(b, [], Begun(b));
  }

  lemma {:induction false} RunGrows(s: State, events: seq<Event>, e: Event)
    requires Wf(s)
    ensures Run(s, events + [e]).0 == Next(Run(s, events).0, e)
    decreases |events|
  {
    hide Wf, Tick, Apply;
    if events == [] {
      assert (events + [e])[1..] == [];
    } else {
      assert (events + [e])[1..] == events[1..] + [e];
      RunGrows(Next(s, events[0]), events[1..], e);
    }
  }

  /** A call on a reachable match leads to a reachable match. */
  lemma ReachableGoesOn(s: State, e: Event)
    requires Reachable(s)
    ensures Wf(s) && Reachable(Next(s, e))
  {
    hide Begun, Legal, Next, Run, Inv;
    ReachableInv(s);
    InvIsWf(s);
    var b, events :| LeadsTo(b, events, s);
    RunGrows(Begun(b), events, e);
    assert LeadsTo(b, events + [e], Next(s, e));
  }

  lemma InvIsWf(s: State)
    requires Inv(s)
    ensures Wf(s)
  {
  }

  /** Runs of a reachable match end in reachable matches. */
  lemma {:induction false} RunsAreReachable(s: State, events: seq<Event>)
    requires Reachable(s)
    ensures Wf(s) && Reachable(Run(s, events).0)
    decreases |events|
  {
    hide Reachable, Tick, Apply, Wf, Inv;
    ReachableInv(s);
    InvIsWf(s);
    if events != [] {
      ReachableGoesOn(s, events[0]);
      RunsAreReachable(Next(s, events[0]), events[1..]);
    }
  }
}
