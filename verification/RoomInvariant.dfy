/** What a room keeps between calls, and how its building blocks keep it. */
module RoomInvariant {
  import opened Basics
  import opened MatchTypes
  import opened RoomRules
  import Rules = MatchRules
  import Openings = MatchOpening

  // ----- the parts -----

  /** Ids are distinct and not empty, the limit holds, and an unlocked room has nobody but its opener. */
  ghost predicate Crowd(settings: Settings, locked: bool, members: seq<Member>) {
    && settings.Valid()
    && Rules.Distinct(Ids(members)) && "" !in Ids(members)
    && |members| <= settings.maxPlayers
    && (!locked ==> |members| <= 1)
  }

  /** A named host is a member, and on the clock exactly while offline. */
  ghost predicate Hosted(members: seq<Member>, host: Id, hostDeadline: Option<Time>, pendingFrom: Id) {
    host != "" ==>
      && IsMember(members, host) && pendingFrom == ""
      && (hostDeadline.Some? <==> !Online(members, host))
  }

  /** Without a host nobody is connected but the host who timed out. */
  ghost predicate Hostless(members: seq<Member>, host: Id, hostDeadline: Option<Time>, pendingFrom: Id) {
    host == "" ==>
      && hostDeadline.None?
      && (members == [] || pendingFrom != "")
      && forall m <- members :: m.connected ==> m.id == pendingFrom
  }

  /** The last hand-over went to somebody else, who is the host if there is one. */
  ghost predicate HandedOver(transfer: Option<Transfer>, host: Id) {
    transfer.Some? ==>
      && transfer.value.from != "" && transfer.value.from != transfer.value.to
      && (host != "" ==> transfer.value.to == host)
  }

  ghost predicate Seated(r: Room) {
    && Crowd(r.settings, r.locked, r.members)
    && Hosted(r.members, r.host, r.hostDeadline, r.pendingFrom)
    && Hostless(r.members, r.host, r.hostDeadline, r.pendingFrom)
    && HandedOver(r.transfer, r.host)
  }

  /** The members are the players still in the match, each as present in one as in the other. */
  ghost predicate Together(members: seq<Member>, players: map<Id, Player>) {
    && (forall id :: IsMember(members, id) <==> id in players && players[id].Watching())
    && (forall m <- members :: m.id in players && m.connected == players[m.id].connected)
  }

  /** Members beyond those still in the match are only ever those the match has just lost. */
  ghost predicate Behind(members: seq<Member>, players: map<Id, Player>) {
    && (forall id :: id in players && players[id].Watching() ==> IsMember(members, id))
    && (forall m <- members :: m.id in players && m.connected == players[m.id].connected)
  }

  ghost predicate MatchKnown(r: Room)
    requires RoomWf(r)
  {
    r.game.Some? ==>
      && Openings.Reachable(r.game.value)
      && Rules.Elements(r.participants) == r.game.value.players.Keys
  }

  ghost predicate Agrees(r: Room)
    requires RoomWf(r)
  {
    && MatchKnown(r)
    && (r.status == InGame <==> r.game.Some? && r.game.value.phase != Ended)
    && (r.status == InGame ==> Together(r.members, r.game.value.players))
  }

  ghost predicate Inv(r: Room) { RoomWf(r) && Seated(r) && Agrees(r) }

  /** Members stand in the order they joined, none after `now`. */
  ghost predicate Joined(members: seq<Member>, now: Time) {
    && (forall i, j :: 0 <= i < j < |members| ==> members[i].joinedAt <= members[j].joinedAt)
    && (forall m <- members :: m.joinedAt <= now)
  }

  // ----- members -----

  lemma {:induction false} DismissMembers(members: seq<Member>, id: Id)
    ensures forall m :: m in Dismiss(members, id) <==> m in members && m.id != id
    ensures |Dismiss(members, id)| <= |members|
    ensures Rules.Distinct(Ids(members)) ==> Rules.Distinct(Ids(Dismiss(members, id)))
  {
    if members != [] {
      DismissMembers(members[1..], id);
      var rest := Dismiss(members[1..], id);
      assert members == [members[0]] + members[1..];
      if Rules.Distinct(Ids(members)) {
        DistinctTail(members);
        if members[0].id != id {
          assert members[0].id !in Ids(rest) by { IdsAreIds(rest); IdsAreIds(members[1..]); }
          DistinctCons(members[0], rest);
        }
      }
    }
  }

  lemma IdsAreIds(members: seq<Member>)
    ensures forall id :: id in Ids(members) <==> IsMember(members, id)
    ensures forall m <- members :: m.id in Ids(members)
  {
    forall id ensures id in Ids(members) <==> IsMember(members, id) {
      if id in Ids(members) {
        var k :| 0 <= k < |Ids(members)| && Ids(members)[k] == id;
        assert members[k] in members;
      }
      if IsMember(members, id) {
        var m :| m in members && m.id == id;
        var k :| 0 <= k < |members| && members[k] == m;
        assert Ids(members)[k] == id;
      }
    }
    forall m <- members ensures m.id in Ids(members) {
      var k :| 0 <= k < |members| && members[k] == m;
      assert Ids(members)[k] == m.id;
    }
  }

  lemma DistinctTail(members: seq<Member>)
    requires members != [] && Rules.Distinct(Ids(members))
    ensures Rules.Distinct(Ids(members[1..])) && members[0].id !in Ids(members[1..])
  {
    assert Ids(members)[1..] == Ids(members[1..]);
    assert Ids(members)[0] == members[0].id;
  }

  lemma DistinctCons(m: Member, members: seq<Member>)
    requires Rules.Distinct(Ids(members)) && m.id !in Ids(members)
    ensures Rules.Distinct(Ids([m] + members))
  {
    assert Ids([m] + members) == [m.id] + Ids(members);
  }

  lemma DistinctSnoc(members: seq<Member>, m: Member)
    requires Rules.Distinct(Ids(members)) && m.id !in Ids(members)
    ensures Rules.Distinct(Ids(members + [m]))
  {
    assert Ids(members + [m]) == Ids(members) + [m.id];
  }

  /** With distinct ids a member is known by its id. */
  lemma OneOfEach(members: seq<Member>, a: Member, b: Member)
    requires Rules.Distinct(Ids(members)) && a in members && b in members && a.id == b.id
    ensures a == b
  {
    var i :| 0 <= i < |members| && members[i] == a;
    var j :| 0 <= j < |members| && members[j] == b;
    assert Ids(members)[i] == Ids(members)[j];
  }

  lemma {:induction false} MarkedMembers(members: seq<Member>, id: Id, connected: bool)
    requires Rules.Distinct(Ids(members))
    ensures var next := Marked(members, id, connected);
      && |next| == |members|
      && forall k :: 0 <= k < |members| ==>
           next[k] == if members[k].id == id then members[k].(connected := connected) else members[k]
  {
    if members != [] {
      DistinctTail(members);
      if members[0].id == id {
        forall k | 1 <= k < |members| ensures members[k].id != id {
          assert Ids(members[1..])[k - 1] == members[k].id;
        }
      } else {
        MarkedMembers(members[1..], id, connected);
      }
    }
  }

  /** One member's line changes; nobody comes or goes. */
  lemma MarkedLine(members: seq<Member>, id: Id, connected: bool)
    requires Rules.Distinct(Ids(members))
    ensures var next := Marked(members, id, connected);
      && Ids(next) == Ids(members)
      && (forall m <- next :: m.id == id ==> m.connected == connected)
      && (forall m: Member :: m.id != id ==> (m in next <==> m in members))
      && (forall i :: IsMember(next, i) <==> IsMember(members, i))
      && (IsMember(members, id) ==> (Online(next, id) <==> connected))
      && (forall i :: i != id ==> (Online(next, i) <==> Online(members, i)))
  {
    MarkedMembers(members, id, connected);
    var next := Marked(members, id, connected);
    assert Ids(next) == Ids(members);
    IdsAreIds(members);
    IdsAreIds(next);
    forall m: Member | m.id != id ensures m in next <==> m in members {
      if m in next { var k :| 0 <= k < |next| && next[k] == m; }
      if m in members { var k :| 0 <= k < |members| && members[k] == m; assert next[k] == m; }
    }
  }
}
