// What each table command and the passing of time change.
module TableEffects {
  import opened Prelude
  import opened TableRotation

  // ---- the host

  // The host is whoever sits in the first occupied seat.
  lemma {:induction false} HostMeans(seats: seq<Option<string>>, user: string)
    ensures Host(seats) == Some(user) <==>
            exists i :: 0 <= i < |seats| && seats[i] == Some(user) && forall j :: 0 <= j < i ==> seats[j].None?
  {
    if seats != [] {
      HostMeans(seats[1..], user);
      if seats[0].None? {
        if Host(seats[1..]) == Some(user) {
          var i :| 0 <= i < |seats[1..]| && seats[1..][i] == Some(user) && forall j :: 0 <= j < i ==>
              seats[1..][j].None?;
          assert seats[i + 1] == Some(user);
          forall j | 0 <= j < i + 1 ensures seats[j].None? { if j > 0 { assert seats[1..][j - 1].None?; } }
        }
        if i :| 0 <= i < |seats| && seats[i] == Some(user) && forall j :: 0 <= j < i ==> seats[j].None? {
          assert seats[1..][i - 1] == Some(user);
          forall j | 0 <= j < i - 1 ensures seats[1..][j].None? { assert seats[j + 1].None?; }
        }
      }
    }
  }

  // A full table passes on its occupants, seat by seat.
  lemma {:induction false} OccupantsMean(seats: seq<Option<string>>)
    ensures Count(seats) == |seats| <==> forall i :: 0 <= i < |seats| ==> seats[i].Some?
    ensures Count(seats) <= |seats|
    ensures Count(seats) == |seats| ==> forall i :: 0 <= i < |seats| ==> Some(Occupants(seats)[i]) == seats[i]
  {
    if seats != [] { OccupantsMean(seats[1..]); }
  }

  // ---- the passing of time

  // What has become of an offer that was pending. It is called off when the match is
  // not over any more or the recipient has left the room, and runs out in its time.
  ghost predicate Aged(t: Table, o: Offer, r: Offer, members: set<string>, now: int) {
    && r == o.(status := r.status)
    && if o.status != Pending then r.status == o.status
       else if t.ended || t.phase != Completed || o.recipient !in members then r.status == Cancelled
       else if now >= o.expiresAt then r.status == Expired
       else r.status == Pending
  }

  lemma {:induction false} ClosedAges(t: Table, members: set<string>, now: int, k: nat)
    requires k <= |t.offers| && (t.phase == Completed ==> !t.ended)
    ensures forall i :: 0 <= i < k ==> Aged(t, t.offers[i], Closed(t, members, now, k).offers[i], members, now)
  {
    hide Without;
    if k > 0 { ClosedAges(t, members, now, k - 1); }
  }

  // Who still waits: everybody whose offer was not closed.
  lemma {:induction false} ClosedQueue(t: Table, members: set<string>, now: int, k: nat, u: string)
    requires TableOk(t) && k <= |t.offers| && (t.phase == Completed ==> !t.ended)
    ensures u in Closed(t, members, now, k).queue <==>
            u in t.queue && !exists i :: 0 <= i < k && t.offers[i].recipient == u && t.offers[i].status == Pending
                                         && Closed(t, members, now, k).offers[i].status != Pending
  {
    hide Without, TableOk, Fate, Closed;
    StepOf(t, members, now, k);
    if k > 0 {
      ClosedQueue(t, members, now, k - 1, u);
      SoundQueue(t, members, now, k - 1);
      var s, r := Closed(t, members, now, k - 1), Closed(t, members, now, k);
      assert forall i :: 0 <= i < k - 1 ==> r.offers[i] == s.offers[i];
      if r != s {
        WithoutMeans(s.queue, s.offers[k - 1].recipient, u);
      }
    }
  }

  lemma SoundQueue(t: Table, members: set<string>, now: int, k: nat)
    requires TableOk(t) && k <= |t.offers|
    ensures NoDup(Closed(t, members, now, k).queue)
  {
    hide Closed, Closing, Fate;
    ClosedKeeps(t, members, now, k);
  }

  lemma StepOf(t: Table, members: set<string>, now: int, k: nat)
    requires k <= |t.offers|
    ensures k == 0 ==> Closed(t, members, now, k) == t
    ensures k > 0 ==>
              var s := Closed(t, members, now, k - 1);
              var o := t.offers[k - 1];
              var fate := Fate(t, o, members, now);
              && s.offers[k - 1] == o && fate != Some(Pending)
              && Closed(t, members, now, k) ==
                 if o.status == Pending && fate.Some? then
                   s.(offers := s.offers[k - 1 := o.(status := fate.value)], queue := Without(s.queue, o.recipient))
                 else s
  {
    hide Without;
  }

  lemma WithoutMeans(queue: seq<string>, user: string, u: string)
    requires NoDup(queue)
    ensures u in Without(queue, user) <==> u in queue && u != user
  {
  }

  // A new offer: a released seat and its leaver, to somebody waiting, for its time.
  ghost predicate NewOffer(t: Table, o: Offer, now: int) {
    && o.status == Pending && Release(o.seat, o.leaving) in t.releases && o.recipient in t.queue
    && o.createdAt == now && o.expiresAt == now + t.offerSeconds
  }

  lemma {:induction false} ServedOffers(t: Table, now: int, k: nat)
    requires k <= |t.releases|
    ensures forall i :: |t.offers| <= i < |Served(t, now, k).offers| ==> NewOffer(t, Served(t, now, k).offers[i], now)
  {
    hide Candidate, PendingFor, NewOffer;
    if k > 0 {
      ServedOffers(t, now, k - 1);
      ServedStep(t, now, k);
      var s, r := Served(t, now, k - 1), Served(t, now, k);
      forall i | |t.offers| <= i < |r.offers| ensures NewOffer(t, r.offers[i], now) {
        if i < |s.offers| { assert r.offers[i] == s.offers[i]; }
      }
    }
  }

  lemma ServedStep(t: Table, now: int, k: nat)
    requires 0 < k <= |t.releases|
    ensures var s, r := Served(t, now, k - 1), Served(t, now, k);
            r == s || (|r.offers| == |s.offers| + 1 && s.offers <= r.offers && NewOffer(t, r.offers[|s.offers|], now))
  {
    hide PendingFor;
  }

  // Time takes its course: offers age, those whose offer was closed lose their
  // place, as do those who sit or have left the room, and released seats are offered.
  lemma AdvanceMeans(t: Table, members: set<string>, now: int)
    requires TableOk(t)
    ensures var r := Advance(t, members, now);
            && |t.offers| <= |r.offers| && r.releases == t.releases && r.nextSeats == t.nextSeats
            && r.phase == (if t.ended then Ended else t.phase)
            && (forall i :: 0 <= i < |t.offers| ==> Aged(t, t.offers[i], r.offers[i], members, now))
            && (forall i :: |t.offers| <= i < |r.offers| ==> NewOffer(r, r.offers[i], now))
            && forall u :: u in r.queue <==>
                 && u in t.queue && u in members && !Seated(t, u)
                 && !exists i :: 0 <= i < |t.offers| && t.offers[i].recipient == u && t.offers[i].status == Pending
                                 && r.offers[i].status != Pending
  {
    hide TableOk, Seated, Closing, Aged, NewOffer, Closed, Served, Candidate;
    AdvanceKeeps(t, members, now);
    var synced := Sync(t);
    SyncKeeps(t);
    ClosedAges(synced, members, now, |synced.offers|);
    var closed := Closed(synced, members, now, |synced.offers|);
    var waiting := closed.(queue := Waiting(closed.queue, closed, members));
    var r := Advance(t, members, now);
    if waiting.phase == Completed {
      ServedOffers(waiting, now, |waiting.releases|);
      SameRules(waiting, r, now);
    }
    assert forall i :: 0 <= i < |t.offers| ==> r.offers[i] == closed.offers[i];
    forall i | 0 <= i < |t.offers| ensures Aged(t, t.offers[i], r.offers[i], members, now) {
      AgedAlike(synced, t, t.offers[i], r.offers[i], members, now);
    }
    forall u ensures u in r.queue <==> u in closed.queue && u in members && !Seated(t, u) {
      SameSeats(t, closed);
    }
    forall u ensures u in closed.queue <==>
      u in t.queue && !exists i :: 0 <= i < |t.offers| && t.offers[i].recipient == u && t.offers[i].status == Pending
                                   && r.offers[i].status != Pending {
      ClosedQueue(synced, members, now, |synced.offers|, u);
    }
  }

  lemma SameSeats(t: Table, r: Table)
    requires r.nextSeats == t.nextSeats
    ensures forall u :: Seated(r, u) <==> Seated(t, u)
  {
  }

  lemma SameRules(t: Table, r: Table, now: int)
    requires r.releases == t.releases && r.queue == t.queue && r.offerSeconds == t.offerSeconds
    ensures forall o :: NewOffer(t, o, now) <==> NewOffer(r, o, now)
  {
  }

  lemma AgedAlike(s: Table, t: Table, o: Offer, r: Offer, members: set<string>, now: int)
    requires s == Sync(t) && Aged(s, o, r, members, now)
    ensures Aged(t, o, r, members, now)
  {
  }

  // ---- giving up a place

  // The seat becomes free, and after the match it is released in the leaver's name.
  lemma LeaveSeatMeans(t: Table, user: string, members: set<string>, now: int)
    requires TableOk(t)
    ensures var r := Do(t, LeaveSeat(user), members, now);
            && r.Changed?
            && (!Seated(t, user) ==> r.table == t)
            && (forall seat :: 1 <= seat <= |t.nextSeats| && t.nextSeats[seat - 1] == Some(user) ==>
                  && r.table == t.(nextSeats := t.nextSeats[seat - 1 := None], releases := r.table.releases)
                  && r.table.releases == if t.phase == Completed then t.releases + [Release(seat, user)]
                     else t.releases)
  {
    hide IndexOf, NoDup, OffersOk, Occupants;
    TableFacts(t);
    forall seat | 1 <= seat <= |t.nextSeats| && t.nextSeats[seat - 1] == Some(user)
      ensures SeatIndex(t.nextSeats, user) == Some(seat - 1) && seat !in ReleasedSeats(t.releases)
    {
      var k := SeatIndex(t.nextSeats, user).value;
      assert t.nextSeats[k] == t.nextSeats[seat - 1] && k == seat - 1;
      forall i | 0 <= i < |t.releases| ensures t.releases[i].seat
          != seat { assert t.nextSeats[t.releases[i].seat - 1].None?; }
    }
  }

  // Leaving the queue calls off every offer to the leaver and nothing else.
  lemma LeaveQueueMeans(t: Table, user: string, members: set<string>, now: int)
    requires TableOk(t)
    ensures var r := Do(t, LeaveQueue(user), members, now);
            && r.Changed? && |r.table.offers| == |t.offers|
            && r.table == t.(queue := r.table.queue, offers := r.table.offers)
            && (forall u :: u in r.table.queue <==> u in t.queue && u != user)
            && !Reserved(r.table, user)
            && forall i :: 0 <= i < |t.offers| ==>
                 r.table.offers[i] ==
                 if t.offers[i].status == Pending && t.offers[i].recipient == user
                 then t.offers[i].(status := Cancelled) else t.offers[i]
  {
    hide Without, NoDup;
    TableFacts(t);
    forall u ensures u in Without(t.queue, user) <==> u in t.queue && u != user { WithoutMeans(t.queue, user, u); }
  }

  // ---- inviting

  // The host may invite to any released seat, a leaver to the own one, while nobody
  // waits; the guest is in the room, has no seat, and no other offer.
  lemma InviteMeans(t: Table, user: string, seat: nat, recipient: string, members: set<string>, now: int)
    requires TableOk(t)
    ensures var r := Do(t, Invite(user, seat, recipient), members, now);
            && (r.Changed? || r.Refused?)
            && (r.Changed? <==>
                  && t.phase == Completed && t.queue == []
                  && (exists leaver :: Release(seat, leaver) in t.releases && (Host(t.nextSeats) == Some(user) || leaver == user))
                  && if PendingFor(t, seat) then OfferedTo(t, seat, recipient)
                     else recipient in members && !Seated(t, recipient) && !Reserved(t, recipient))
            && (r.Changed? && PendingFor(t, seat) ==> r.table == t)
            && (r.Changed? && !PendingFor(t, seat) ==>
                  && |r.table.offers| == |t.offers| + 1
                  && var o := r.table.offers[|t.offers|];
                     && Release(seat, o.leaving) in t.releases
                     && o == Offer(seat, o.leaving, recipient, now, now + t.offerSeconds, Pending)
                     && r.table == t.(offers := t.offers + [o]))
  {
    hide NoDup, Seated, Reserved, PendingFor, Host, OfferOk, OneSeatEach;
    ReleaseFound(t, seat);
    OfferFound(t, seat, recipient);
    hide TableOk, PendingAt;
  }

  predicate OfferedTo(t: Table, seat: nat, recipient: string) {
    exists i :: 0 <= i < |t.offers| && t.offers[i].status == Pending && t.offers[i].seat == seat
                && t.offers[i].recipient == recipient
  }

  // A seat has one release at most, and the lookup finds it.
  lemma ReleaseFound(t: Table, seat: nat)
    requires TableOk(t)
    ensures seat in ReleasedSeats(t.releases) <==> exists leaver :: Release(seat, leaver) in t.releases
    ensures seat in ReleasedSeats(t.releases) ==>
              var release := t.releases[IndexOf(ReleasedSeats(t.releases), seat)];
              release.seat == seat && forall leaver :: Release(seat, leaver) in t.releases <==> leaver == release.user
  {
    var seats := ReleasedSeats(t.releases);
    forall leaver | Release(seat, leaver) in t.releases ensures seat in seats {
      var i :| 0 <= i < |t.releases| && t.releases[i] == Release(seat, leaver);
      assert seats[i] == seat;
    }
    if seat in seats {
      var k := IndexOf(seats, seat);
      assert t.releases[k] == Release(seat, t.releases[k].user) && t.releases[k] in t.releases;
      forall leaver | Release(seat, leaver) in t.releases ensures leaver == t.releases[k].user {
        var i :| 0 <= i < |t.releases| && t.releases[i] == Release(seat, leaver);
        assert seats[i] == seats[k];
      }
    }
  }

  lemma OfferFound(t: Table, seat: nat, recipient: string)
    requires TableOk(t)
    ensures var found := PendingAt(t.offers, seat);
            && (found.Some? <==> PendingFor(t, seat))
            && (found.Some? ==> (t.offers[found.value].recipient == recipient <==> OfferedTo(t, seat, recipient)))
  {
    hide PendingAt, OfferOk, NoDup;
  }

  // ---- answering

  // An offer is accepted by its recipient while it stands, the seat is free and the
  // recipient may play; accepting twice changes nothing more.
  lemma AcceptMeans(t: Table, user: string, k: nat, available: bool, members: set<string>, now: int)
    requires TableOk(t)
    ensures var r := Do(t, Command.Accept(user, k, available), members, now);
            && (r.Changed? || r.Same? || r.Refused?)
            && (r.Same? <==> k < |t.offers| && t.offers[k].recipient == user && t.offers[k].status == OfferStatus.Accepted)
            && (r.Changed? <==>
                  && k < |t.offers| && t.offers[k].recipient == user && t.offers[k].status == Pending
                  && t.phase == Completed && available)
            && (r.Changed? ==>
                  var o := t.offers[k];
                  && 1 <= o.seat <= |t.nextSeats| && t.nextSeats[o.seat - 1].None?
                  && r.table == t.(nextSeats := t.nextSeats[o.seat - 1 := Some(user)], releases := r.table.releases,
                       offers := t.offers[k := o.(status := OfferStatus.Accepted)], queue := r.table.queue)
                  && (forall x :: x in r.table.releases <==> x in t.releases && x.seat != o.seat)
                  && forall u :: u in r.table.queue <==> u in t.queue && u != user)
  {
    hide NoDup, Without, DropRelease, Seated, OneSeatEach;
    TableFacts(t);
    if k < |t.offers| {
      forall u ensures u in Without(t.queue, t.offers[k].recipient) <==> u in t.queue && u != t.offers[k].recipient {
        WithoutMeans(t.queue, t.offers[k].recipient, u);
      }
      if t.offers[k].status == Pending {
        assert OfferOk(t, t.offers[k]);
      }
    }
  }

  lemma DeclineMeans(t: Table, user: string, k: nat, members: set<string>, now: int)
    requires TableOk(t)
    ensures var r := Do(t, Command.Decline(user, k), members, now);
            && (r.Changed? || r.Same? || r.Refused?)
            && (r.Same? <==> k < |t.offers| && t.offers[k].recipient == user && t.offers[k].status == Declined)
            && (r.Changed? <==>
                  && k < |t.offers| && t.offers[k].recipient == user && t.offers[k].status == Pending
                  && t.phase == Completed)
            && (r.Changed? ==>
                  && r.table == t.(offers := t.offers[k := t.offers[k].(status := Declined)], queue := r.table.queue)
                  && forall u :: u in r.table.queue <==> u in t.queue && u != user)
  {
    hide NoDup, Without, Seated, OneSeatEach;
    TableFacts(t);
    if k < |t.offers| {
      forall u ensures u in Without(t.queue, t.offers[k].recipient) <==> u in t.queue && u != t.offers[k].recipient {
        WithoutMeans(t.queue, t.offers[k].recipient, u);
      }
    }
  }

  // ---- the next match

  // The host may call the next match once every seat is taken by a member of the
  // room; everybody keeps the seat, and this table ends.
  lemma NextMatchMeans(t: Table, user: string, members: set<string>, now: int)
    requires TableOk(t)
    ensures var r := Do(t, NextMatch(user), members, now);
            && (r.Ready? || r.Refused?)
            && (r.Ready? <==>
                  && t.phase == Completed && t.releases == [] && Host(t.nextSeats) == Some(user)
                  && forall i :: 0 <= i < |t.nextSeats| ==> t.nextSeats[i].Some? && t.nextSeats[i].value in members)
            && (r.Ready? ==>
                  && r.table == t.(ended := true) && |r.roster| == |t.nextSeats|
                  && forall i :: 0 <= i < |t.nextSeats| ==> t.nextSeats[i] == Some(r.roster[i]))
  {
    hide NoDup, Occupants, Count, Host, OffersOk, ReleasesOk;
    OccupantsMean(t.nextSeats);
    var roster := Occupants(t.nextSeats);
    if forall i :: 0 <= i < |t.nextSeats| ==> t.nextSeats[i].Some? && t.nextSeats[i].value in members {
      forall u | u in roster ensures u in members {
        var i :| 0 <= i < |t.nextSeats| && t.nextSeats[i] == Some(u);
      }
    }
    if Count(t.nextSeats) == |t.nextSeats| && forall u :: u in roster ==> u in members {
      forall i | 0 <= i < |t.nextSeats| ensures t.nextSeats[i].value in members {
        assert roster[i] in roster;
      }
    }
  }

  // Ending a table only marks it; its offers are called off by the time that follows.
  lemma EndMeans(t: Table, members: set<string>, now: int)
    ensures Do(t, EndTable, members, now) == Changed(t.(ended := true)) && Do(t, Tick, members, now) == Same
    ensures TableOk(t) ==> NothingPending(Advance(t.(ended := true), members, now))
  {
    if TableOk(t) {
      EndKeeps(t);
      AdvanceKeeps(t.(ended := true), members, now);
    }
    hide TableOk, Advance, Closing;
  }
}
