/** What calls on the match mean for the people in the room: presence, who is still in, reachability. */
module RoomMatch {
  import opened Basics
  import opened MatchTypes
  import opened MatchRules
  import opened MatchClock
  import opened MatchCommands
  import opened MatchProgress
  import opened MatchOpening
  import Absence = MatchAbsence

  // ----- presence -----

  ghost predicate SameLines(s: State, r: State) {
    r.players.Keys == s.players.Keys && forall id <- s.players :: r.players[id].connected == s.players[id].connected
  }

  lemma {:induction false} TickLines(s: State, now: Time)
    requires Wf(s)
    ensures SameLines(s, Tick(s, now))
    decreases PendingStrikes(s.players), Overdue(s, now)
  {
    hide Step, ValidSetup, Elements;
    if Due(s, now) {
      StepProgress(s, now);
      forall id <- s.players ensures Step(s).players[id].connected == s.players[id].connected && id in Step(s).players {
        Absence.StepPresence(s, id);
      }
      TickLines(Step(s), now);
    }
  }

  /** Nothing but `Disconnect` and `Reconnect` moves anybody's line. */
  lemma ApplyLines(s: State, now: Time, c: Command)
    requires Wf(s) && !c.Disconnect? && !c.Reconnect?
    ensures SameLines(s, Apply(s, now, c).0)
  {
    hide Act, Tick, ValidSetup, Elements;
    TickLines(s, now);
    var t := Tick(s, now);
    forall id <- s.players ensures id in Act(t, now, c).0.players &&
      Act(t, now, c).0.players[id].connected == t.players[id].connected {
      Absence.ActPresence(t, now, c, id);
    }
  }

  /** A player still in the match who drops or returns is let do so, and only their line moves. */
  lemma MoveLines(s: State, now: Time, c: Command)
    requires Live(s) && Settled(s, now) && (c.Disconnect? || c.Reconnect?)
    requires c.id in s.players && s.players[c.id].Watching()
    ensures Apply(s, now, c).1 == Ok
    ensures var r := Apply(s, now, c).0;
      && r.players.Keys == s.players.Keys
      && r.players[c.id].connected == c.Reconnect?
      && forall id <- s.players :: id != c.id ==> r.players[id].connected == s.players[id].connected
  {
    hide Act, Tick, Settled, ValidSetup, Elements;
    TickBeforeDeadline(s, now);
    OwnLine(s, now, c);
    forall id <- s.players | id != c.id
      ensures id in Act(s, now, c).0.players && Act(s, now, c).0.players[id].connected == s.players[id].connected
    {
      Absence.ActPresence(s, now, c, id);
    }
  }

  lemma OwnLine(s: State, now: Time, c: Command)
    requires Live(s) && (c.Disconnect? || c.Reconnect?)
    requires c.id in s.players && s.players[c.id].Watching()
    ensures Act(s, now, c).1 == Ok
    ensures c.id in Act(s, now, c).0.players && Act(s, now, c).0.players[c.id].connected == c.Reconnect?
  {
    hide ValidSetup, Elements, MaybeAdvance, Shape, Changes;
    Absence.AdvancePresence(Dropped(s, c.id, now), now, c.id);
    Absence.AdvancePresence(Returned(s, c.id), now, c.id);
  }

  /** Whoever leaves a running match is out of it. */
  lemma LeaverIsOut(s: State, now: Time, id: Id)
    requires Live(s) && Settled(s, now) && id in s.players
    ensures Apply(s, now, Leave(id)).1 == Ok
    ensures id in Apply(s, now, Leave(id)).0.players && !Apply(s, now, Leave(id)).0.players[id].Watching()
  {
    hide Tick, Settled, ValidSetup, Elements, Judge;
    TickBeforeDeadline(s, now);
    if s.players[id].Watching() {
      WithoutKeepsShape(s, {id}, Left);
      var t := Without(s, {id}, Left);
      var r := Judge(t, s.setup.impostor in {id}, s.phase == Hints && Holder(s) in {id}, now);
      assert StatusMove(t.players[id].status, r.players[id].status);
    }
  }

  // ----- who is still in -----

  /** Those in the match after a call were in it before. */
  lemma NobodyComesBack(s: State, r: State)
    requires Advances(s, r)
    ensures r.players.Keys == s.players.Keys
    ensures forall id <- s.players :: r.players[id].Watching() ==> s.players[id].Watching()
    ensures s.phase == Ended ==> r.phase == Ended
  {
    hide Forward;
  }
}
