/**
 * The reply cache of a session (server/internal/api/ws.go): a repeated message id gets the
 * earlier reply and its command is not run again.  `Log` is the simple account of the same
 * thing, every command ever run; `RunIsReference` shows the bounded cache answers as the log would.
 */
module ReplyCache {
  import opened Basics

  const SIZE := 100
  const TTL := 300_000_000_000

  datatype Cached = Cached(at: Time, msg: string)

  datatype CachedId = CachedId(id: string, at: Time)

  datatype Cache = Cache(byId: map<string, Cached>, order: seq<CachedId>)

  // ----- the cache as values -----

  /** `get` */
  function Get(c: Cache, id: string, now: Time): Option<string> {
    if id in c.byId && now - c.byId[id].at < TTL then Some(c.byId[id].msg) else None
  }

  predicate MustGo(c: Cache, now: Time) {
    |c.order| > 0 && (|c.order| > SIZE || now - c.order[0].at >= TTL)
  }

  /** One round of the loop of `prune`; a reply overwritten by a later use of its id stays. */
  function Pop(c: Cache): Cache
    requires |c.order| > 0
  {
    var oldest := c.order[0];
    var kept := if oldest.id in c.byId && c.byId[oldest.id].at == oldest.at then c.byId - {oldest.id} else c.byId;
    Cache(kept, c.order[1..])
  }

  /** `prune` */
  ghost function Prune(c: Cache, now: Time): (r: Cache)
    ensures !MustGo(r, now)
    decreases |c.order|
  {
    if MustGo(c, now) then Prune(Pop(c), now) else c
  }

  function Added(c: Cache, id: string, msg: string, now: Time): Cache {
    Cache(c.byId[id := Cached(now, msg)], c.order + [CachedId(id, now)])
  }

  /** `put` */
  ghost function Put(c: Cache, id: string, msg: string, now: Time): Cache { Prune(Added(c, id, msg, now), now) }

  // ----- frames -----

  /** A frame as it comes in: `allowed` is the rate limiter's word, `outcome` the reply its command would get. */
  datatype Event = Frame(id: string, at: Time, allowed: bool, outcome: string) | Reap(at: Time)

  datatype Answer = Replayed(msg: string) | RateLimited | Executed(msg: string)

  /** `handleFrame`, as far as the cache goes. */
  ghost function Handle(c: Cache, e: Event): (Cache, Answer)
    requires e.Frame?
  {
    var hit := Get(c, e.id, e.at);
    if hit.Some? then (c, Replayed(hit.value))
    else if !e.allowed then (c, RateLimited)
    else (Put(c, e.id, e.outcome, e.at), Executed(e.outcome))
  }

  /** A session: its frames, with the reaper's pruning anywhere between. */
  ghost function Run(c: Cache, events: seq<Event>): (Cache, seq<Answer>)
    decreases |events|
  {
    if events == [] then (c, [])
    else match events[0]
      case Reap(at) => Run(Prune(c, at), events[1..])
      case Frame(_, _, _, _) =>
        var first := Handle(c, events[0]);
        var rest := Run(first.0, events[1..]);
        (rest.0, [first.1] + rest.1)
  }

  ghost predicate InOrder(from: Time, events: seq<Event>, to: Time)
    decreases |events|
  {
    if events == [] then from <= to else from <= events[0].at && InOrder(events[0].at, events[1..], to)
  }

  // ----- the reference: a log of everything ever run -----

  datatype Entry = Entry(id: string, at: Time, msg: string)

  /** Entry `i` still answers for its id: it is in time, and fewer than `SIZE` commands ran after it. */
  ghost predicate Answers(log: seq<Entry>, i: int, id: string, now: Time) {
    0 <= i < |log| && log[i].id == id && now - log[i].at < TTL && |log| - i <= SIZE
  }

  /** What the log answers: the reply of an entry that still does, if there is one. */
  ghost function Reference(log: seq<Entry>, id: string, now: Time): (r: Option<string>)
    ensures r.Some? <==> exists i :: Answers(log, i, id, now)
    ensures r.Some? ==> exists i :: Answers(log, i, id, now) && log[i].msg == r.value
  {
    if exists i :: Answers(log, i, id, now) then
      var i :| Answers(log, i, id, now);
      Some(log[i].msg)
    else None
  }

  ghost function RunLog(log: seq<Entry>, events: seq<Event>): (seq<Entry>, seq<Answer>)
    decreases |events|
  {
    if events == [] then (log, [])
    else match events[0]
      case Reap(_) => RunLog(log, events[1..])
      case Frame(id, at, allowed, outcome) =>
        var known := Reference(log, id, at);
        if known.Some? then
          var rest := RunLog(log, events[1..]);
          (rest.0, [Replayed(known.value)] + rest.1)
        else if !allowed then
          var rest := RunLog(log, events[1..]);
          (rest.0, [RateLimited] + rest.1)
        else
          var rest := RunLog(log + [Entry(id, at, outcome)], events[1..]);
          (rest.0, [Executed(outcome)] + rest.1)
  }

  // ----- how the cache follows the log -----

  ghost predicate Timely(log: seq<Entry>, now: Time) {
    && (forall i, j :: 0 <= i < j < |log| ==> log[i].at <= log[j].at)
    && (forall i :: 0 <= i < |log| ==> log[i].at <= now)
  }

  /** The queue holds the log from entry `n` on; what it no longer holds can no longer answer. */
  ghost predicate Queue(order: seq<CachedId>, log: seq<Entry>, n: nat, now: Time) {
    && |log| == n + |order|
    && (forall i :: n <= i < |log| ==> order[i - n] == CachedId(log[i].id, log[i].at))
    && (forall i :: 0 <= i < n ==> |log| - i > SIZE || now - log[i].at >= TTL)
  }

  /** An id used again had run out by then. */
  ghost predicate Spent(log: seq<Entry>, n: nat, now: Time) {
    forall i, j :: n <= i < j < |log| && log[i].id == log[j].id ==> now - log[i].at >= TTL && log[i].at < log[j].at
  }

  ghost predicate Last(log: seq<Entry>, n: nat, i: int, id: string) {
    n <= i < |log| && log[i].id == id && forall j :: i < j < |log| ==> log[j].id != id
  }

  ghost predicate HasLast(log: seq<Entry>, n: nat, id: string) { exists i :: Last(log, n, i, id) }

  /** The map holds the last entry of every id in the queue, and nothing else. */
  ghost predicate Mapped(byId: map<string, Cached>, log: seq<Entry>, n: nat) {
    && (forall i, id :: Last(log, n, i, id) ==> id in byId && byId[id] == Cached(log[i].at, log[i].msg))
    && (forall id <- byId :: HasLast(log, n, id))
  }

  ghost predicate Follows(c: Cache, log: seq<Entry>, n: nat, now: Time) {
    Timely(log, now) && Queue(c.order, log, n, now) && Spent(log, n, now) && Mapped(c.byId, log, n)
  }

  lemma PopFollows(c: Cache, log: seq<Entry>, n: nat, now: Time)
    requires Follows(c, log, n, now) && MustGo(c, now)
    ensures Follows(Pop(c), log, n + 1, now)
  {
    var id := log[n].id;
    assert c.order[0] == CachedId(id, log[n].at);
    QueuePops(c.order, log, n, now);
    if j :| n < j < |log| && log[j].id == id {
      var k := LastOf(log, n + 1, j);
      assert Last(log, n, k, id);
      assert log[n].at < log[k].at;
      forall i, x ensures Last(log, n + 1, i, x) ==> Last(log, n, i, x) {
      }
      forall x <- c.byId ensures HasLast(log, n + 1, x) {
        var i :| Last(log, n, i, x);
        assert Last(log, n + 1, i, x);
      }
    } else {
      assert Last(log, n, n, id);
      forall x <- c.byId - {id} ensures HasLast(log, n + 1, x) {
        var i :| Last(log, n, i, x);
        assert Last(log, n + 1, i, x);
      }
      forall i, x ensures Last(log, n + 1, i, x) ==> Last(log, n, i, x) && x != id {
      }
    }
  }

  lemma QueuePops(order: seq<CachedId>, log: seq<Entry>, n: nat, now: Time)
    requires Queue(order, log, n, now) && |order| > 0 && (|order| > SIZE || now - order[0].at >= TTL)
    ensures Queue(order[1..], log, n + 1, now)
  {
  }

  /** The last use of the id of entry `j`. */
  lemma LastOf(log: seq<Entry>, n: nat, j: int) returns (k: int)
    requires n <= j < |log|
    ensures j <= k && Last(log, n, k, log[j].id)
    decreases |log| - j
  {
    k := j;
    if i :| j < i < |log| && log[i].id == log[j].id {
      k := LastOf(log, n, i);
    }
  }

  lemma {:induction false} PruneFollows(c: Cache, log: seq<Entry>, n: nat, now: Time) returns (m: nat)
    requires Follows(c, log, n, now)
    ensures Follows(Prune(c, now), log, m, now)
    decreases |c.order|
  {
    hide Follows, Pop;
    m := n;
    if MustGo(c, now) {
      PopFollows(c, log, n, now);
      PopShorter(c);
      m := PruneFollows(Pop(c), log, n + 1, now);
    }
  }

  lemma PopShorter(c: Cache)
    requires |c.order| > 0
    ensures |Pop(c).order| < |c.order|
  {
  }

  lemma LaterFollows(c: Cache, log: seq<Entry>, n: nat, from: Time, now: Time)
    requires Follows(c, log, n, from) && from <= now
    ensures Follows(c, log, n, now)
  {
  }

  /** The cache answers what the log answers. */
  lemma GetIsReference(c: Cache, log: seq<Entry>, n: nat, id: string, now: Time)
    requires Follows(c, log, n, now) && |c.order| <= SIZE
    ensures Get(c, id, now) == Reference(log, id, now)
  {
    forall i | Answers(log, i, id, now) ensures Last(log, n, i, id) {
    }
    if Get(c, id, now).Some? {
      var i :| Last(log, n, i, id);
      assert Answers(log, i, id, now);
    }
  }

  lemma AddFollows(c: Cache, log: seq<Entry>, n: nat, id: string, msg: string, now: Time)
    requires Follows(c, log, n, now) && |c.order| <= SIZE && Get(c, id, now).None?
    ensures Follows(Added(c, id, msg, now), log + [Entry(id, now, msg)], n, now)
  {
    var more := log + [Entry(id, now, msg)];
    GetIsReference(c, log, n, id, now);
    forall i | n <= i < |log| && log[i].id == id ensures now - log[i].at >= TTL {
      assert !Answers(log, i, id, now);
    }
    LastAfterAdd(log, n, Entry(id, now, msg));
    MappedAfterAdd(c.byId, log, n, Entry(id, now, msg));
  }

  lemma MappedAfterAdd(byId: map<string, Cached>, log: seq<Entry>, n: nat, e: Entry)
    requires n <= |log| && Mapped(byId, log, n)
    ensures Mapped(byId[e.id := Cached(e.at, e.msg)], log + [e], n)
  {
    LastAfterAdd(log, n, e);
    var more, next := log + [e], byId[e.id := Cached(e.at, e.msg)];
    forall id <- next ensures HasLast(more, n, id) {
      if id == e.id {
        assert Last(more, n, |log|, id);
      } else {
        var i :| Last(log, n, i, id);
        assert Last(more, n, i, id);
      }
    }
  }

  lemma LastAfterAdd(log: seq<Entry>, n: nat, e: Entry)
    requires n <= |log|
    ensures forall i, id :: Last(log + [e], n, i, id) <==> if id == e.id then i == |log| else Last(log, n, i, id)
  {
    var more := log + [e];
    forall i, id ensures Last(more, n, i, id) <==> if id == e.id then i == |log| else Last(log, n, i, id) {
      assert more[|log|] == e;
      if Last(more, n, i, id) && id != e.id {
        assert forall j :: i < j < |log| ==> log[j] == more[j];
      }
      if Last(log, n, i, id) && id != e.id {
        assert forall j :: i < j < |more| ==> more[j].id != id;
      }
    }
  }

  // ----- main results -----

  const EMPTY := Cache(map[], [])

  /** The state between events: the cache follows some log, and is within its size. */
  ghost predicate Sound(c: Cache, log: seq<Entry>, now: Time) {
    |c.order| <= SIZE && exists n: nat :: Follows(c, log, n, now)
  }

  lemma PruneSound(c: Cache, log: seq<Entry>, n: nat, now: Time)
    requires Follows(c, log, n, now)
    ensures Sound(Prune(c, now), log, now)
  {
    hide Follows;
    var m := PruneFollows(c, log, n, now);
    PruneFits(c, now);
  }

  lemma PruneFits(c: Cache, now: Time)
    ensures |Prune(c, now).order| <= SIZE
  {
  }

  /** Session by session, the cache gives exactly the answers of the log it need not keep. */
  lemma {:induction false} RunIsReference(c: Cache, log: seq<Entry>, events: seq<Event>, from: Time, to: Time)
    requires Sound(c, log, from) && InOrder(from, events, to)
    ensures Run(c, events).1 == RunLog(log, events).1
    ensures Sound(Run(c, events).0, RunLog(log, events).0, to)
    decreases |events|
  {
    hide Follows, Prune, Added, Get, Reference;
    var n: nat :| Follows(c, log, n, from);
    if events == [] {
      LaterFollows(c, log, n, from, to);
    } else {
      var at := events[0].at;
      LaterFollows(c, log, n, from, at);
      match events[0]
      case Reap(_) =>
        PruneSound(c, log, n, at);
        RunIsReference(Prune(c, at), log, events[1..], at, to);
      case Frame(id, _, allowed, outcome) =>
        GetIsReference(c, log, n, id, at);
        if Get(c, id, at).Some? || !allowed {
          RunIsReference(c, log, events[1..], at, to);
        } else {
          AddFollows(c, log, n, id, outcome, at);
          PruneSound(Added(c, id, outcome, at), log + [Entry(id, at, outcome)], n, at);
          RunIsReference(Put(c, id, outcome, at), log + [Entry(id, at, outcome)], events[1..], at, to);
        }
    }
  }

  lemma EmptySound(now: Time)
    ensures Sound(EMPTY, [], now)
  {
    assert Follows(EMPTY, [], 0, now);
  }

  /** No command of an id runs twice, unless the time is up or `SIZE` other commands ran in between. */
  ghost predicate AtMostOnce(log: seq<Entry>) {
    forall i, j :: 0 <= i < j < |log| && log[i].id == log[j].id ==>
      log[j].at - log[i].at >= TTL || j - i - 1 >= SIZE
  }

  lemma {:induction false} LogAtMostOnce(log: seq<Entry>, events: seq<Event>)
    requires AtMostOnce(log)
    ensures AtMostOnce(RunLog(log, events).0)
    decreases |events|
  {
    if events != [] {
      match events[0]
      case Reap(_) => LogAtMostOnce(log, events[1..]);
      case Frame(id, at, allowed, outcome) =>
        if Reference(log, id, at).Some? || !allowed {
          LogAtMostOnce(log, events[1..]);
        } else {
          forall i | 0 <= i < |log| && log[i].id == id ensures at - log[i].at >= TTL || |log| - i - 1 >= SIZE {
            assert !Answers(log, i, id, at);
          }
          LogAtMostOnce(log + [Entry(id, at, outcome)], events[1..]);
        }
    }
  }

  /**
   * After any session a frame is answered from the cache exactly when a command with its id ran less
   * than `TTL` ago with fewer than `SIZE` commands run since, and then with that command's reply.
   * `log` is every command the session ran.
   */
  lemma RepeatsAreReplayed(events: seq<Event>, from: Time, e: Event)
    requires e.Frame? && InOrder(from, events, e.at)
    ensures var c, log := Run(EMPTY, events).0, RunLog([], events).0;
      && (Handle(c, e).1.Replayed? <==> exists i :: Answers(log, i, e.id, e.at))
      && (forall i :: Answers(log, i, e.id, e.at) ==> Handle(c, e).1 == Replayed(log[i].msg))
      && AtMostOnce(log)
  {
    var c, log := Run(EMPTY, events).0, RunLog([], events).0;
    EmptySound(from);
    RunIsReference(EMPTY, [], events, from, e.at);
    LogAtMostOnce([], events);
    var n: nat :| Follows(c, log, n, e.at);
    GetIsReference(c, log, n, e.id, e.at);
    forall i | Answers(log, i, e.id, e.at) ensures Handle(c, e).1 == Replayed(log[i].msg) {
      OneAnswers(log, e.id, e.at, i);
    }
  }

  /** At most one entry of an id can still answer. */
  lemma OneAnswers(log: seq<Entry>, id: string, now: Time, i: int)
    requires AtMostOnce(log) && Timely(log, now) && Answers(log, i, id, now)
    ensures Reference(log, id, now) == Some(log[i].msg)
  {
    forall j | Answers(log, j, id, now) ensures j == i {
    }
  }

  /** Every key has its entry in the queue, and at most `SIZE` replies are held. */
  lemma CacheIsBounded(events: seq<Event>, from: Time, to: Time)
    requires InOrder(from, events, to)
    ensures var c := Run(EMPTY, events).0;
      && (forall id <- c.byId :: CachedId(id, c.byId[id].at) in c.order)
      && |c.byId| <= |c.order| <= SIZE
  {
    var c, log := Run(EMPTY, events).0, RunLog([], events).0;
    EmptySound(from);
    RunIsReference(EMPTY, [], events, from, to);
    var n: nat :| Follows(c, log, n, to);
    forall id <- c.byId ensures CachedId(id, c.byId[id].at) in c.order {
      var i :| Last(log, n, i, id);
      assert c.order[i - n] == CachedId(id, c.byId[id].at);
    }
    KeysInQueue(c.byId.Keys, c.order);
  }

  lemma {:induction false} KeysInQueue(ids: set<string>, order: seq<CachedId>)
    requires forall id <- ids :: exists q :: q in order && q.id == id
    ensures |ids| <= |order|
    decreases |order|
  {
    if order != [] {
      var rest := ids - {order[0].id};
      forall id <- rest ensures exists q :: q in order[1..] && q.id == id {
        var q :| q in order && q.id == id;
        assert q in order[1..];
      }
      KeysInQueue(rest, order[1..]);
      assert |ids| <= |rest| + 1 by {
        assert ids == if order[0].id in ids then rest + {order[0].id} else rest;
      }
    } else {
      assert ids == {};
    }
  }

  // ----- the cache in place -----

  class Replies {
    var byId: map<string, Cached>
    var order: seq<CachedId>

    function Abs(): Cache
      reads this
    {
      Cache(byId, order)
    }

    constructor ()
      ensures Abs() == EMPTY
    {
      byId, order := map[], [];
    }

    /** `get` */
    method Lookup(id: string, now: Time) returns (msg: string, ok: bool)
      ensures Get(Abs(), id, now) == if ok then Some(msg) else None
    {
      if id !in byId { return "", false; }
      return byId[id].msg, now - byId[id].at < TTL;
    }

    /** `put` */
    method Store(id: string, msg: string, now: Time)
      modifies this
      ensures Abs() == Put(old(Abs()), id, msg, now)
    {
      hide Prune;
      byId := byId[id := Cached(now, msg)];
      order := order + [CachedId(id, now)];
      Discard(now);
    }

    /** `prune` */
    method Discard(now: Time)
      modifies this
      ensures Abs() == Prune(old(Abs()), now)
    {
      while |order| > 0 && (|order| > SIZE || now - order[0].at >= TTL)
        invariant Prune(Abs(), now) == Prune(old(Abs()), now)
        decreases |order|
      {
        var oldest := order[0];
        if oldest.id in byId && byId[oldest.id].at == oldest.at {
          byId := byId - {oldest.id};
        }
        order := order[1..];
      }
    }

    /** The use of the cache in `handleFrame`; `outcome` is the reply of the command, should it run. */
    method HandleFrame(id: string, now: Time, allowed: bool, outcome: string) returns (answer: Answer)
      modifies this
      ensures (Abs(), answer) == Handle(old(Abs()), Frame(id, now, allowed, outcome))
    {
      hide Put;
      var msg, ok := Lookup(id, now);
      if ok {
        return Replayed(msg);
      } else if !allowed {
        return RateLimited;
      }
      Store(id, outcome, now);
      return Executed(outcome);
    }
  }
}
