/**
 * Following a match in one piece: `syncGame` takes those who are out of the match away one after the other,
 * which is to let all of them go at once.
 */
module RoomDepartures {
  import opened Basics
  import opened MatchTypes
  import opened RoomRules
  import opened RoomInvariant
  import opened RoomSeats
  import opened RoomAgreement
  import opened RoomSuccession
  import Rules = MatchRules

  // ----- who stays -----

  ghost predicate Out(players: map<Id, Player>, id: Id) { id in players && !players[id].Watching() }

  ghost function Staying(members: seq<Member>, players: map<Id, Player>): (r: seq<Member>)
    ensures |r| <= |members|
  {
    if members == [] then []
    else if Out(players, members[0].id) then Staying(members[1..], players)
    else [members[0]] + Staying(members[1..], players)
  }

  lemma {:induction false} StayingMembers(members: seq<Member>, players: map<Id, Player>)
    ensures forall m :: m in Staying(members, players) <==> m in members && !Out(players, m.id)
  {
    if members != [] {
      StayingMembers(members[1..], players);
      assert members == [members[0]] + members[1..];
    }
  }

  lemma {:induction false} NobodyOut(members: seq<Member>, players: map<Id, Player>)
    requires forall m <- members :: !Out(players, m.id)
    ensures Staying(members, players) == members
  {
    if members != [] {
      assert members == [members[0]] + members[1..];
      NobodyOut(members[1..], players);
    }
  }

  lemma StayingCons(m: Member, rest: seq<Member>, players: map<Id, Player>)
    ensures Staying([m] + rest, players) ==
      if Out(players, m.id) then Staying(rest, players) else [m] + Staying(rest, players)
  {
    assert ([m] + rest)[1..] == rest;
  }

  lemma DismissCons(m: Member, rest: seq<Member>, id: Id)
    ensures Dismiss([m] + rest, id) == if m.id == id then Dismiss(rest, id) else [m] + Dismiss(rest, id)
  {
    assert ([m] + rest)[1..] == rest;
  }

  /** The order of the removals does not matter. */
  lemma {:induction false} StayingDismiss(members: seq<Member>, players: map<Id, Player>, id: Id)
    requires Out(players, id)
    ensures Staying(Dismiss(members, id), players) == Staying(members, players)
  {
    if members != [] {
      assert members == [members[0]] + members[1..];
      StayingDismiss(members[1..], players, id);
      DismissCons(members[0], members[1..], id);
      if members[0].id != id { StayingCons(members[0], Dismiss(members[1..], id), players); }
    }
  }

  lemma {:induction false} StayingTwice(members: seq<Member>, p: map<Id, Player>, q: map<Id, Player>)
    requires forall id :: Out(p, id) ==> Out(q, id)
    ensures Staying(Staying(members, p), q) == Staying(members, q)
  {
    if members != [] {
      StayingTwice(members[1..], p, q);
      if !Out(p, members[0].id) { StayingCons(members[0], Staying(members[1..], p), q); }
    }
  }

  lemma {:induction false} DismissOne(members: seq<Member>, id: Id)
    requires Rules.Distinct(Ids(members)) && IsMember(members, id)
    ensures |Dismiss(members, id)| == |members| - 1
  {
    DistinctTail(members);
    assert members == [members[0]] + members[1..];
    if members[0].id == id {
      IdsAreIds(members[1..]);
      DismissNobody(members[1..], id);
    } else {
      DismissOne(members[1..], id);
    }
  }

  // ----- who takes over -----

  /** The id of the member who takes over from `from`, if there is one. */
  ghost function HeirOf(members: seq<Member>, from: Id): Option<Id> {
    if Heir(members, from) == |members| then None else Some(members[Heir(members, from)].id)
  }

  lemma HeirCons(m: Member, rest: seq<Member>, from: Id)
    ensures HeirOf([m] + rest, from) == if m.connected && m.id != from then Some(m.id) else HeirOf(rest, from)
  {
    assert ([m] + rest)[1..] == rest;
  }

  lemma {:induction false} HeirStays(members: seq<Member>, players: map<Id, Player>, from: Id)
    requires OutAreOffline(members, players)
    ensures HeirOf(Staying(members, players), from) == HeirOf(members, from)
  {
    hide HeirOf;
    if members != [] {
      assert members == [members[0]] + members[1..];
      HeirStays(members[1..], players, from);
      HeirCons(members[0], members[1..], from);
      HeirCons(members[0], Staying(members[1..], players), from);
    }
  }

  lemma {:induction false} HeirDismiss(members: seq<Member>, id: Id, from: Id)
    requires forall m <- members :: m.id == id ==> !m.connected
    ensures HeirOf(Dismiss(members, id), from) == HeirOf(members, from)
  {
    hide HeirOf;
    if members != [] {
      assert members == [members[0]] + members[1..];
      HeirDismiss(members[1..], id, from);
      HeirCons(members[0], members[1..], from);
      HeirCons(members[0], Dismiss(members[1..], id), from);
      DismissCons(members[0], members[1..], id);
    }
  }

  ghost predicate Dark(members: seq<Member>) { forall m <- members :: !m.connected }

  lemma DarkIsHeirless(members: seq<Member>, from: Id)
    requires forall m <- members :: m.id == from ==> !m.connected
    ensures Dark(members) <==> HeirOf(members, from).None?
  {
    if Heir(members, from) == |members| {
      forall m <- members ensures !m.connected {
        var k :| 0 <= k < |members| && members[k] == m;
      }
    }
  }

  // ----- following a match, in one piece -----

  /**
   * What becomes of members, host and version when those out of the match go, whatever their order: a
   * host who goes is followed by whoever is next in line, and in a room where nobody is connected by the
   * first who stays, on the clock from `now`.
   */
  ghost function After(r: Room, players: map<Id, Player>, now: Time): Room {
    var staying := Staying(r.members, players);
    var t := r.(members := staying, version := r.version + (|r.members| - |staying|));
    if !Out(players, r.host) then t
    else match HeirOf(r.members, r.host)
      case Some(id) =>
        t.(host := id, hostDeadline := None, pendingFrom := "", transfer := Some(Transfer(r.host, id, HostRemoved)))
      case None =>
        t.(host := if staying == [] then "" else staying[0].id, pendingFrom := "",
           hostDeadline := if staying == [] then None else Some(now + HOST_RECONNECT))
  }

  /** Rooms that differ at most in their record of the last hand-over. */
  ghost predicate Alike(r: Room, t: Room) { t == r.(transfer := t.transfer) }

  /** The hand-over, if any, is to somebody connected. */
  ghost predicate Clear(r: Room, players: map<Id, Player>) { Out(players, r.host) ==> !Dark(r.members) }

  ghost predicate Passing(members: seq<Member>, players: map<Id, Player>) {
    && Rules.Distinct(Ids(members)) && "" !in Ids(members) && "" !in players && OutAreOffline(members, players)
    && forall m <- members :: Out(players, m.id) ==> players[m.id].status == Removed
  }

  lemma PassingOn(members: seq<Member>, players: map<Id, Player>, id: Id)
    requires Passing(members, players) && IsMember(members, id) && Out(players, id)
    ensures Passing(Dismiss(members, id), players)
    ensures forall m <- members :: m.id == id ==> !m.connected
    ensures Dark(Dismiss(members, id)) <==> Dark(members)
  {
    DismissMembers(members, id);
    IdsAreIds(members);
    IdsAreIds(Dismiss(members, id));
  }

  lemma StepAfter(r: Room, players: map<Id, Player>, id: Id, now: Time)
    requires Passing(r.members, players) && IsMember(r.members, id) && Out(players, id)
    ensures var t := SyncPlayer(r, id, Removed, now);
      && Passing(t.members, players) && Alike(After(t, players, now), After(r, players, now))
      && (Clear(r, players) ==> Clear(t, players) && After(t, players, now) == After(r, players, now))
  {
    hide TransferHost, Dark, HeirOf, OutAreOffline;
    PassingOn(r.members, players, id);
    DismissOne(r.members, id);
    StayingDismiss(r.members, players, id);
    if id == r.host {
      HostAfter(r, players, now);
    } else {
      HeirDismiss(r.members, id, r.host);
    }
  }

  /** A hand-over that is not for a timeout, by whoever is next in line. */
  lemma HandsOver(r: Room, at: Time)
    requires r.host != ""
    ensures var t := TransferHost(r, HostRemoved, at);
      match HeirOf(r.members, r.host)
      case Some(id) =>
        t == r.(host := id, hostDeadline := None, pendingFrom := "",
          transfer := Some(Transfer(r.host, id, HostRemoved)))
      case None =>
        && (r.members == [] ==> t == r.(host := "", hostDeadline := None, pendingFrom := ""))
        && (r.members != [] && !r.members[0].connected ==>
              t == r.(host := r.members[0].id, hostDeadline := Some(at + HOST_RECONNECT), pendingFrom := "",
                transfer := t.transfer))
  {
  }

  lemma HostAfter(r: Room, players: map<Id, Player>, now: Time)
    requires Passing(r.members, players) && IsMember(r.members, r.host) && Out(players, r.host)
    ensures var t := SyncPlayer(r, r.host, Removed, now);
      && Alike(After(t, players, now), After(r, players, now))
      && (!Dark(r.members) ==> Clear(t, players) && After(t, players, now) == After(r, players, now))
  {
    hide TransferHost, Dark, HeirOf, OutAreOffline;
    PassingOn(r.members, players, r.host);
    DismissOne(r.members, r.host);
    StayingDismiss(r.members, players, r.host);
    HeirDismiss(r.members, r.host, r.host);
    DarkIsHeirless(r.members, r.host);
    IdsAreIds(r.members);
    var u := r.(members := Dismiss(r.members, r.host));
    HandsOver(u, now);
    if Dark(r.members) {
      DarkHost(u, now);
    } else {
      HeirIsIn(r.members, players, r.host);
    }
  }

  /** Where nobody is connected the first of those left takes over, and nobody could take over from them. */
  lemma DarkHost(r: Room, at: Time)
    requires Dark(r.members) && r.host != ""
    ensures var t := TransferHost(r, HostRemoved, at);
      && (r.members == [] ==> t == r.(host := "", hostDeadline := None, pendingFrom := ""))
      && (r.members != [] ==> HeirOf(r.members, r.members[0].id).None?)
      && (r.members != [] ==> t == r.(host := r.members[0].id, hostDeadline := Some(at + HOST_RECONNECT),
            pendingFrom := "", transfer := t.transfer))
  {
    hide HeirOf, TransferHost;
    HandsOver(r, at);
    DarkIsHeirless(r.members, r.host);
    if r.members != [] {
      assert r.members[0] in r.members;
      DarkIsHeirless(r.members, r.members[0].id);
    }
  }

  lemma HeirIsIn(members: seq<Member>, players: map<Id, Player>, from: Id)
    requires OutAreOffline(members, players) && HeirOf(members, from).Some?
    ensures !Out(players, HeirOf(members, from).value)
  {
    assert members[Heir(members, from)] in members;
  }

  lemma {:induction false} SyncAfter(r: Room, order: seq<Id>, players: map<Id, Player>, now: Time)
    requires Passing(r.members, players)
    ensures var t := SyncPlayers(r, order, players, now);
      && Alike(After(t, players, now), After(r, players, now))
      && (Clear(r, players) ==> After(t, players, now) == After(r, players, now))
    decreases |order|
  {
    hide Passing, After, SyncPlayer, Clear, IsMember;
    if order != [] {
      if order[0] in players {
        var next := SyncPlayer(r, order[0], players[order[0]].status, now);
        if IsMember(r.members, order[0]) && Out(players, order[0]) {
          OutIsRemoved(r.members, players, order[0]);
          StepAfter(r, players, order[0], now);
        } else {
          StillThere(r, order[0], players[order[0]].status, now);
        }
        SyncAfter(next, order[1..], players, now);
      } else {
        SyncAfter(r, order[1..], players, now);
      }
    }
  }

  lemma OutIsRemoved(members: seq<Member>, players: map<Id, Player>, id: Id)
    requires Passing(members, players) && IsMember(members, id) && Out(players, id)
    ensures players[id].status == Removed
  {
  }

  lemma NothingAfter(r: Room, players: map<Id, Player>, now: Time)
    requires (forall m <- r.members :: !Out(players, m.id)) && !Out(players, r.host)
    ensures After(r, players, now) == r
  {
    NobodyOut(r.members, players);
  }

  /** Following the match is that one piece. */
  lemma SyncIsAfter(r: Room, order: seq<Id>, players: map<Id, Player>, now: Time)
    requires Seated(r) && Passing(r.members, players) && "" !in order
    requires forall id :: id in players ==> id in order
    ensures var t := SyncPlayers(r, order, players, now);
      && Alike(t, After(r, players, now))
      && (Clear(r, players) ==> t == After(r, players, now))
  {
    hide Seated, Passing, After, SyncPlayers, Clear;
    var t := SyncPlayers(r, order, players, now);
    SyncAfter(r, order, players, now);
    SyncPlayersSeats(r, order, players, now);
    SyncPlayersMembers(r, order, players, now);
    HostIsIn(t, players);
    NothingAfter(t, players, now);
  }

  lemma HostIsIn(r: Room, players: map<Id, Player>)
    requires Seated(r) && "" !in players && forall m <- r.members :: !Out(players, m.id)
    ensures !Out(players, r.host)
  {
  }
}
