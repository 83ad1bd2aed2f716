/** The start timers of a forming game (server/internal/matchmaking/matchmaking.go). */
module Matchmaking {
  import opened Basics

  const SECOND := 1_000_000_000
  const MIN_PLAYERS := 4
  const COUNTDOWN_PLAYERS := 6
  const WAIT := 30 * SECOND
  const COUNTDOWN := 5 * SECOND

  datatype Status = Searching | WaitingForMore | Countdown

  /** Go's zero time is `None`. */
  datatype Timers = Timers(waitUntil: Option<Time>, countdownUntil: Option<Time>)
  {
    /** `StartAt` */
    function StartAt(): Option<Time> {
      if countdownUntil.None? || (waitUntil.Some? && waitUntil.value < countdownUntil.value) then waitUntil
        else countdownUntil
    }

    /** `Status` */
    function Status(): Status {
      if waitUntil.None? then Searching else if countdownUntil.Some? then Countdown else WaitingForMore
    }
  }

  const STOPPED := Timers(None, None)

  /** `Update` */
  function Updated(t: Timers, players: int, now: Time): Timers {
    if players < MIN_PLAYERS then STOPPED
    else
      Timers(if t.waitUntil.None? then Some(now + WAIT) else t.waitUntil,
             if players >= COUNTDOWN_PLAYERS && t.countdownUntil.None? then Some(now + COUNTDOWN) else t.countdownUntil)
  }

  datatype Change = Change(players: int, at: Time)

  /** The timers after a history of changes, the last one last. */
  function After(history: seq<Change>): Timers {
    if history == [] then STOPPED
    else
      var last := history[|history| - 1];
      Updated(After(history[..|history| - 1]), last.players, last.at)
  }

  // ----- what the timers mean -----

  /** Where the current unbroken stretch of four or more begins; the end of the history if there is none. */
  ghost predicate StretchFrom(history: seq<Change>, n: int) {
    && 0 <= n <= |history|
    && (forall k :: n <= k < |history| ==> history[k].players >= MIN_PLAYERS)
    && (n > 0 ==> history[n - 1].players < MIN_PLAYERS)
  }

  /** Change `k` is the first from `n` on to reach `players`. */
  ghost predicate FirstAt(history: seq<Change>, n: int, players: int, k: int) {
    && 0 <= n <= k < |history| && history[k].players >= players
    && forall j :: n <= j < k ==> history[j].players < players
  }

  ghost predicate Reaches(history: seq<Change>, n: int, players: int) {
    exists k :: FirstAt(history, n, players, k)
  }

  /** The timer `time` after the stretch first reaches `players`. */
  ghost function Since(history: seq<Change>, n: int, players: int, time: Time): (r: Option<Time>)
    ensures r.Some? <==> Reaches(history, n, players)
    ensures forall k :: FirstAt(history, n, players, k) ==> r == Some(history[k].at + time)
  {
    if Reaches(history, n, players) then
      var k :| FirstAt(history, n, players, k);
      assert forall j :: FirstAt(history, n, players, j) ==> j == k;
      Some(history[k].at + time)
    else None
  }

  lemma {:induction false} TimersSince(history: seq<Change>, n: int)
    requires StretchFrom(history, n)
    ensures After(history).waitUntil == Since(history, n, MIN_PLAYERS, WAIT)
    ensures After(history).countdownUntil == Since(history, n, COUNTDOWN_PLAYERS, COUNTDOWN)
    decreases |history|
  {
    hide FirstAt, Reaches, Since;
    if n < |history| {
      var before := history[..|history| - 1];
      TimersSince(before, n);
      SinceGrows(history, n, MIN_PLAYERS, WAIT);
      SinceGrows(history, n, COUNTDOWN_PLAYERS, COUNTDOWN);
    } else {
      NothingYet(history, MIN_PLAYERS, WAIT);
      NothingYet(history, COUNTDOWN_PLAYERS, COUNTDOWN);
    }
  }

  lemma NothingYet(history: seq<Change>, players: int, time: Time)
    ensures Since(history, |history|, players, time) == None
  {
    assert !Reaches(history, |history|, players);
  }

  lemma SixAreFour(history: seq<Change>, n: int)
    requires Reaches(history, n, COUNTDOWN_PLAYERS)
    ensures Reaches(history, n, MIN_PLAYERS)
  {
    hide Since;
    var k :| FirstAt(history, n, COUNTDOWN_PLAYERS, k);
    var j := Earliest(history, n, MIN_PLAYERS, k);
  }

  /** One more change in a stretch starts a timer at most once. */
  lemma SinceGrows(history: seq<Change>, n: int, players: int, time: Time)
    requires 0 <= n < |history|
    ensures var before, last := history[..|history| - 1], history[|history| - 1];
      Since(history, n, players, time) ==
        if Since(before, n, players, time).None? && last.players >= players then Some(last.at + time)
        else Since(before, n, players, time)
  {
    var before, end := history[..|history| - 1], |history| - 1;
    if k :| FirstAt(before, n, players, k) {
      assert FirstAt(history, n, players, k);
    } else if history[end].players >= players {
      if j :| n <= j < end && history[j].players >= players {
        var k := Earliest(before, n, players, j);
      }
      assert FirstAt(history, n, players, end);
    } else {
      forall k ensures !FirstAt(history, n, players, k) {
        assert FirstAt(history, n, players, k) ==> FirstAt(before, n, players, k);
      }
    }
  }

  lemma Earliest(history: seq<Change>, n: int, players: int, j: int) returns (k: int)
    requires 0 <= n <= j < |history| && history[j].players >= players
    ensures FirstAt(history, n, players, k)
    decreases j - n
  {
    k := j;
    if i :| n <= i < j && history[i].players >= players {
      k := Earliest(history, n, players, i);
    }
  }

  ghost function Sooner(a: Option<Time>, b: Option<Time>): Option<Time> {
    if a.None? then b else if b.None? || a.value <= b.value then a else b
  }

  /**
   * Over any history the game starts at the sooner of two moments of the current stretch of four or
   * more: `WAIT` after it first had four, `COUNTDOWN` after it first had six.
   */
  lemma StartOfTheStretch(history: seq<Change>, n: int)
    requires StretchFrom(history, n)
    ensures After(history).StartAt() ==
      Sooner(Since(history, n, MIN_PLAYERS, WAIT), Since(history, n, COUNTDOWN_PLAYERS, COUNTDOWN))
  {
    hide FirstAt, Reaches, Since;
    TimersSince(history, n);
    if Reaches(history, n, COUNTDOWN_PLAYERS) { SixAreFour(history, n); }
  }

  lemma {:induction false} StretchExists(history: seq<Change>) returns (n: int)
    ensures StretchFrom(history, n)
    decreases |history|
  {
    n := |history|;
    if history != [] && history[|history| - 1].players >= MIN_PLAYERS {
      n := StretchExists(history[..|history| - 1]);
    }
  }

  /** There is a start time, and the status says so, exactly while at least four search. */
  lemma StartsExactlyWithFour(history: seq<Change>)
    ensures After(history).StartAt().Some? <==> history != [] && history[|history| - 1].players >= MIN_PLAYERS
    ensures After(history).Status() == Searching <==> After(history).StartAt().None?
    ensures After(history).Status() == Countdown <==> After(history).countdownUntil.Some?
  {
    var n := StretchExists(history);
    hide Since;
    TimersSince(history, n);
    if n < |history| {
      var k := Earliest(history, n, MIN_PLAYERS, |history| - 1);
    }
    if Reaches(history, n, COUNTDOWN_PLAYERS) {
      var k :| FirstAt(history, n, COUNTDOWN_PLAYERS, k);
    }
  }

  /** Within a stretch the start never moves later. */
  lemma StartNeverMovesLater(history: seq<Change>, next: Change)
    requires After(history).StartAt().Some? && next.players >= MIN_PLAYERS
    ensures After(history + [next]).StartAt().Some?
    ensures After(history + [next]).StartAt().value <= After(history).StartAt().value
  {
    assert (history + [next])[..|history|] == history;
    StartsExactlyWithFour(history);
  }

  // ----- the timers in place -----

  class StartTimers {
    var waitUntil: Option<Time>
    var countdownUntil: Option<Time>

    function Abs(): Timers
      reads this
    {
      Timers(waitUntil, countdownUntil)
    }

    constructor ()
      ensures Abs() == STOPPED
    {
      waitUntil, countdownUntil := None, None;
    }

    method Update(players: int, now: Time)
      modifies this
      ensures Abs() == Updated(old(Abs()), players, now)
    {
      if players < MIN_PLAYERS {
        waitUntil, countdownUntil := None, None;
        return;
      }
      if waitUntil.None? { waitUntil := Some(now + WAIT); }
      if players >= COUNTDOWN_PLAYERS && countdownUntil.None? { countdownUntil := Some(now + COUNTDOWN); }
    }
  }
}
