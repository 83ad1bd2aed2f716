/** Clocks of a reachable match: no command leaves an expired timer, and no hint turn outlives its own clock. */
module MatchTurns {
  import opened Basics
  import Words
  import opened MatchTypes
  import opened MatchRules
  import opened MatchClock
  import opened MatchCommands
  import opened MatchInvariant
  import opened MatchKeeps
  import opened MatchOpening

  /** Every timer lies after `now`. */
  ghost predicate Calm(s: State, now: Time)
    requires Wf(s)
  {
    s.phase == Ended || (now < s.deadline.value &&
      forall id <- s.players :: Pending(s.players, id) ==> now < s.players[id].strikeAt.value)
  }

  lemma CalmIsSettled(s: State, now: Time)
    requires Wf(s)
    ensures Calm(s, now) <==> Settled(s, now)
  {
    assert forall id :: id in s.players <==> id in Elements(s.setup.order);
    var strike := EarliestStrike(s.setup.order, s.players);
    if strike.Some? && s.phase != Ended {
      var id :| id in s.setup.order && Pending(s.players, id) && s.players[id].strikeAt == strike;
      assert id in s.players;
    }
  }

  /** A phase rule applied at `now` to a calm match leaves it calm. */
  lemma ChangesCalm(s: State, r: State, now: Time)
    requires Live(s) && Calm(s, now) && Changes(s, r, now)
    ensures Wf(r) && Calm(r, now)
  {
    hide ValidSetup, Actives, Elements;
    if r.phase != Ended {
      forall id <- r.players | Pending(r.players, id) ensures now < r.players[id].strikeAt.value {
        assert SamePresence(s.players[id], r.players[id]) && Pending(s.players, id);
      }
    }
  }

  lemma OnePlayerCalm(s: State, id: Id, p: Player, now: Time)
    requires Live(s) && Calm(s, now) && id in s.players && p.status == s.players[id].status
    requires p.status == Active && p.strikeAt.Some? ==> p.strikeAt == s.players[id].strikeAt || now < p.strikeAt.value
    ensures var t := s.(players := s.players[id := p]); Live(t) && Calm(t, now)
  {
    hide ValidSetup, Elements;
    SameActives(s.players, id, p);
    assert Pending(s.players, id) || !Pending(s.players, id);
  }

  lemma ConfirmCalm(s: State, now: Time, c: Command)
    requires Live(s) && Calm(s, now) && (c.ConfirmRole? || c.ContinueAfterElimination?)
    ensures Calm(Act(s, now, c).0, now)
  {
    hide ValidSetup, Elements, Actives, MaybeAdvance, Changes, Calm;
    if c.id in s.players {
      OnePlayerCalm(s, c.id, s.players[c.id].(confirmed := true), now);
      ChangesCalm(Confirm(s, c.id), MaybeAdvance(Confirm(s, c.id), now), now);
      BumpCalm(MaybeAdvance(Confirm(s, c.id), now), now);
    }
  }

  lemma BumpCalm(s: State, now: Time)
    requires Wf(s) && Calm(s, now)
    ensures Calm(Bump(s), now)
  {
    hide ValidSetup, Elements, Actives;
  }

  lemma PresenceCalm(s: State, now: Time, c: Command)
    requires Live(s) && Calm(s, now) && (s.phase == Hints ==> TurnClock(s)) && (c.Disconnect? || c.Reconnect?)
    ensures Calm(Act(s, now, c).0, now)
  {
    hide ValidSetup, Elements, Actives, MaybeAdvance, Changes, Calm, AwaitReconnect, TurnClock;
    if c.id in s.players {
      DurationsPositive(s.setup);
      if c.Disconnect? {
        var t := Dropped(s, c.id, now);
        OnePlayerCalm(s, c.id, t.players[c.id], now);
        ChangesCalm(t, MaybeAdvance(t, now), now);
        BumpCalm(MaybeAdvance(t, now), now);
        BumpCalm(t, now);
        if s.phase == Hints {
          AwaitCalm(s, t, now);
          BumpCalm(AwaitReconnect(t, now), now);
        }
      } else {
        var t := Returned(s, c.id);
        OnePlayerCalm(s, c.id, t.players[c.id], now);
        ChangesCalm(t, MaybeAdvance(t, now), now);
        BumpCalm(MaybeAdvance(t, now), now);
        BumpCalm(t, now);
        if s.phase == Hints {
          AwaitCalm(s, t, now);
          BumpCalm(t.(reconnecting := false, deadline := s.turnDeadline), now);
        }
      }
    }
  }

  lemma AwaitCalm(s: State, t: State, now: Time)
    requires Live(s) && s.phase == Hints && TurnClock(s) && Calm(s, now)
    requires Wf(t) && t == s.(players := t.players) && Calm(t, now)
    ensures Wf(AwaitReconnect(t, now)) && Calm(AwaitReconnect(t, now), now)
    ensures var r := t.(reconnecting := false, deadline := s.turnDeadline); Wf(r) && Calm(r, now)
  {
    hide Elements, Actives, Distinct;
    DurationsPositive(s.setup);
  }

  lemma OtherCalm(s: State, now: Time, c: Command)
    requires Live(s) && Calm(s, now)
    requires c.SubmitHint? || c.React? || c.Vote? || c.SubmitGuess? || c.Leave?
    ensures Calm(Act(s, now, c).0, now)
  {
    hide ActVote, ActLeave, ActSubmitHint, ActReact, ActSubmitGuess, Calm, Wf;
    match c
    case Vote(id, target) => VoteCalm(s, now, id, target);
    case Leave(id) => LeaveCalm(s, now, id);
    case SubmitHint(id, text) => HintCalm(s, now, id, text);
    case React(id, k, reaction) => ReactCalm(s, now, id, k, reaction);
    case SubmitGuess(id, guess) => GuessCalm(s, now, id, guess);
  }

  lemma VoteCalm(s: State, now: Time, id: Id, target: Id)
    requires Live(s) && Calm(s, now)
    ensures Calm(ActVote(s, id, target, now).0, now)
  {
    hide ValidSetup, Elements, Actives, MaybeAdvance, Changes;
    if ActVote(s, id, target, now).1 == Ok {
      var t := s.(votes := s.votes[id := target], voteCast := true);
      ChangesCalm(t, MaybeAdvance(t, now), now);
    }
  }

  lemma LeaveCalm(s: State, now: Time, id: Id)
    requires Live(s) && Calm(s, now)
    ensures Calm(ActLeave(s, id, now).0, now)
  {
    hide ValidSetup, Elements, Actives, RemoveAll, Changes;
    if ActLeave(s, id, now).0 != s { ChangesCalm(s, RemoveAll(s, {id}, Left, now), now); }
  }

  lemma HintCalm(s: State, now: Time, id: Id, text: string)
    requires Live(s) && Calm(s, now)
    ensures Calm(ActSubmitHint(s, id, text, now).0, now)
  {
    hide ValidSetup, Elements, Actives, HintVerdict, Tidy;
    DurationsPositive(s.setup);
  }

  lemma ReactCalm(s: State, now: Time, id: Id, k: int, reaction: string)
    requires Live(s) && Calm(s, now)
    ensures Calm(ActReact(s, id, k, reaction).0, now)
  {
    hide ValidSetup, Elements, Actives, Land, Added, Shape;
  }

  lemma GuessCalm(s: State, now: Time, id: Id, guess: string)
    requires Live(s) && Calm(s, now)
    ensures Calm(ActSubmitGuess(s, id, guess).0, now)
  {
    hide ValidSetup, Elements, Actives, End, Words.Accepts;
  }

  lemma ActCalm(s: State, now: Time, c: Command)
    requires Live(s) && Inv(s) && Calm(s, now)
    ensures Calm(Act(s, now, c).0, now)
  {
    hide Act, Inv, Calm, Wf, Consistent, NotLingering;
    HoldersClock(s);
    match c
    case ConfirmRole(_) => ConfirmCalm(s, now, c);
    case ContinueAfterElimination(_) => ConfirmCalm(s, now, c);
    case Disconnect(_) => PresenceCalm(s, now, c);
    case Reconnect(_) => PresenceCalm(s, now, c);
    case SubmitHint(_, _) => OtherCalm(s, now, c);
    case React(_, _, _) => OtherCalm(s, now, c);
    case Vote(_, _) => OtherCalm(s, now, c);
    case SubmitGuess(_, _) => OtherCalm(s, now, c);
    case Leave(_) => OtherCalm(s, now, c);
  }

  lemma HoldersClock(s: State)
    requires Inv(s)
    ensures Wf(s) && (s.phase == Hints ==> TurnClock(s))
  {
    hide NotLingering;
  }

  lemma RunActCalm(s: State, now: Time, c: Command)
    requires Wf(s) && Inv(s)
    ensures Settled(Apply(s, now, c).0, now)
  {
    hide Inv, Tick, Act, Calm, Settled;
    var t := Tick(s, now);
    TickInv(s, now);
    TickSettles(s, now);
    CalmIsSettled(t, now);
    CalmIsSettled(Act(t, now, c).0, now);
    if t.phase == Ended {
      EndedStays(t, now, c);
    } else {
      ActCalm(t, now, c);
    }
  }

  lemma EndedStays(s: State, now: Time, c: Command)
    requires Wf(s) && s.phase == Ended
    ensures Calm(Act(s, now, c).0, now)
  {
    hide ValidSetup, Elements, Actives, Words.Accepts, HintVerdict;
  }

  /** A command leaves no expired timer behind: ticking again at the same moment does nothing. */
  lemma CommandsSettle(s: State, now: Time, c: Command)
    requires Reachable(s)
    ensures Wf(s) && Settled(Apply(s, now, c).0, now)
    ensures Tick(Apply(s, now, c).0, now) == Apply(s, now, c).0
  {
    hide Reachable, Inv, Apply, Settled;
    ReachableInv(s);
    InvIsConsistent(s);
    RunActCalm(s, now, c);
    TickBeforeDeadline(Apply(s, now, c).0, now);
  }

  lemma NextIsCalm(s: State, e: Event)
    requires Wf(s) && Inv(s)
    ensures Inv(Next(s, e)) && Settled(Next(s, e), e.at)
  {
    hide Inv, Tick, Act, Settled;
    match e
    case Timer(at) =>
      TickInv(s, at);
      TickSettles(s, at);
    case Call(at, c) =>
      ApplyInv(s, at, c);
      RunActCalm(s, at, c);
  }

  /**
   * After any call, a bare tick or a command, a hint turn belongs to an active player, waits exactly
   * while that player is away, and still lies within its own clock.
   */
  lemma HintTurnWithinItsClock(s: State, e: Event)
    requires Reachable(s)
    ensures Wf(s)
    ensures var r := Next(s, e); r.phase == Hints ==>
      && Holder(r) in Actives(r.players)
      && (r.reconnecting <==> !r.players[Holder(r)].connected)
      && e.at < r.deadline.value <= r.turnDeadline.value
  {
    hide Reachable, Inv, Next;
    ReachableInv(s);
    InvIsConsistent(s);
    NextIsCalm(s, e);
    var r := Next(s, e);
    HoldersClock(r);
    CalmIsSettled(r, e.at);
  }
}
