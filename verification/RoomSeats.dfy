/** Membership and host: every room rule leaves a room `Seated`. */
module RoomSeats {
  import opened Basics
  import opened MatchTypes
  import opened RoomRules
  import opened RoomInvariant
  import Rules = MatchRules

  lemma CrowdAfter(r: Room, members: seq<Member>)
    requires Crowd(r.settings, r.locked, r.members)
    requires |members| <= |r.members| && Rules.Distinct(Ids(members)) &&
      forall m <- members :: IsMember(r.members, m.id)
    ensures Crowd(r.settings, r.locked, members)
  {
    IdsAreIds(members);
    IdsAreIds(r.members);
  }

  lemma OnlineIsTheMember(members: seq<Member>, m: Member)
    requires Rules.Distinct(Ids(members)) && m in members
    ensures Online(members, m.id) <==> m.connected
  {
    if Online(members, m.id) {
      var o :| o in members && o.id == m.id && o.connected;
      OneOfEach(members, o, m);
    }
  }

  /** Hand-over names somebody other than the host it replaces, or nobody while nobody else is there. */
  lemma TransferSeats(r: Room, reason: Reason, at: Time)
    requires Crowd(r.settings, r.locked, r.members) && HandedOver(r.transfer, "") && Outgoing(r) != ""
    requires reason != HostTimeout ==> !IsMember(r.members, Outgoing(r))
    ensures Seated(TransferHost(r, reason, at))
  {
    var from := Outgoing(r);
    var i := Heir(r.members, from);
    IdsAreIds(r.members);
    if i < |r.members| {
      OnlineIsTheMember(r.members, r.members[i]);
    } else if reason != HostTimeout && r.members != [] {
      OnlineIsTheMember(r.members, r.members[0]);
    } else {
      forall m <- r.members | m.connected ensures m.id == from {
        var k :| 0 <= k < |r.members| && r.members[k] == m;
      }
    }
  }

  lemma DepartSeats(r: Room, id: Id, reason: Reason, at: Time)
    requires Seated(r) && id != "" && reason != HostTimeout
    ensures Seated(Depart(r, id, reason, at))
  {
    var t := r.(members := Dismiss(r.members, id));
    DismissMembers(r.members, id);
    CrowdAfter(r, t.members);
    if id == r.host {
      TransferSeats(t, reason, at);
    } else if r.host != "" {
      var m :| m in r.members && m.id == r.host;
      assert m in t.members;
      OnlineIsTheMember(r.members, m);
      OnlineIsTheMember(t.members, m);
    }
  }

  lemma SyncPlayersSeats(r: Room, order: seq<Id>, players: map<Id, Player>, now: Time)
    requires Seated(r) && "" !in order
    ensures Seated(SyncPlayers(r, order, players, now))
    decreases |order|
  {
    hide Seated;
    if order != [] {
      if order[0] in players {
        SyncPlayerSeats(r, order[0], players[order[0]].status, now);
        SyncPlayersSeats(SyncPlayer(r, order[0], players[order[0]].status, now), order[1..], players, now);
      } else {
        SyncPlayersSeats(r, order[1..], players, now);
      }
    }
  }

  lemma SyncPlayerSeats(r: Room, id: Id, status: Status, now: Time)
    requires Seated(r) && id != ""
    ensures Seated(SyncPlayer(r, id, status, now))
  {
    hide Depart;
    DepartSeats(r, id, if status == Removed then HostRemoved else HostLeft, now);
  }

  lemma TickHostSeats(r: Room, now: Time)
    requires Seated(r)
    ensures Seated(TickHost(r, now))
  {
    hide TransferHost;
    if r.hostDeadline.Some? && r.hostDeadline.value <= now {
      TransferSeats(r, HostTimeout, r.hostDeadline.value);
    }
  }

  lemma JoinSeats(r: Room, id: Id, now: Time)
    requires RoomWf(r) && Seated(r) && id != ""
    ensures Seated(ActJoin(r, id, now).0)
  {
    hide TransferHost;
    if ActJoin(r, id, now).0 != r {
      var m := Member(id, true, now);
      var t := r.(members := r.members + [m], locked := true);
      IdsAreIds(r.members);
      DistinctSnoc(r.members, m);
      assert Ids(t.members) == Ids(r.members) + [id];
      assert m in t.members;
      if r.pendingFrom != "" {
        TransferSeats(t, HostTimeout, now);
      } else if r.host != "" {
        var h :| h in r.members && h.id == r.host;
        assert h in t.members;
        OnlineIsTheMember(r.members, h);
        OnlineIsTheMember(t.members, h);
      } else {
        OnlineIsTheMember(t.members, m);
      }
    }
  }

  lemma SettingsSeats(r: Room, byId: Id, settings: Settings)
    requires RoomWf(r) && Seated(r)
    ensures Seated(ActUpdateSettings(r, byId, settings).0)
  {
  }

  lemma KickSeats(r: Room, byId: Id, id: Id)
    requires RoomWf(r) && Seated(r)
    ensures Seated(ActKick(r, byId, id).0)
  {
    hide Depart;
    if ActKick(r, byId, id).0 != r {
      IdsAreIds(r.members);
      DepartSeats(r, id, HostLeft, 0);
      assert Depart(r, id, HostLeft, 0) == r.(members := Dismiss(r.members, id)) by { DepartOther(r, id); }
    }
  }

  lemma DepartOther(r: Room, id: Id)
    requires id != r.host
    ensures Depart(r, id, HostLeft, 0) == r.(members := Dismiss(r.members, id))
  {
  }

  lemma OfflineSeats(r: Room, id: Id, now: Time)
    requires Seated(r) && IsMember(r.members, id)
    ensures Seated(LineGone(Mark(r, id, false), id, now))
  {
    MarkedLine(r.members, id, false);
    IdsAreIds(r.members);
    forall m <- Marked(r.members, id, false) ensures m.connected ==> m in r.members {
    }
  }

  lemma OnlineSeats(r: Room, id: Id, now: Time)
    requires Seated(r) && IsMember(r.members, id)
    ensures Seated(LineBack(Mark(r, id, true), id, now))
  {
    hide TransferHost;
    var t := r.(members := Marked(r.members, id, true));
    MarkedLine(r.members, id, true);
    IdsAreIds(r.members);
    if r.pendingFrom != "" && id != r.pendingFrom {
      TransferSeats(t, HostTimeout, now);
    }
  }
}
