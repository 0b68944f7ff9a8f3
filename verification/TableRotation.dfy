// A completed table whose seats must be replaced: leaving, queueing, inviting,
// accepting and declining, with offers that run out.
module TableRotation {
  import opened Prelude

  datatype OfferStatus = Pending | Accepted | Declined | Cancelled | Expired
  datatype Offer = Offer(seat: nat, leaving: string, recipient: string, createdAt: int, expiresAt: int,
      status: OfferStatus)
  datatype Release = Release(seat: nat, user: string)
  datatype Phase = Completed | Ended

  // Dictionaries in insertion order; an offer's id is its place in the list.
  datatype Table = Table(
    capacity: nat, offerSeconds: int, ended: bool, phase: Phase, nextSeats: seq<Option<string>>,
    releases: seq<Release>, offers: seq<Offer>, queue: seq<string>)

  // ---- reading the table

  predicate Seated(t: Table, user: string) {
    exists i :: 0 <= i < |t.nextSeats| && t.nextSeats[i] == Some(user)
  }

  function SeatIndex(seats: seq<Option<string>>, user: string): (r: Option<nat>)
    ensures r.Some? ==> r.value < |seats| && seats[r.value] == Some(user)
    ensures r.None? ==> forall i :: 0 <= i < |seats| ==> seats[i] != Some(user)
  {
    if Some(user) in seats then Some(IndexOf(seats, Some(user))) else None
  }

  function ReleasedSeats(releases: seq<Release>): (r: seq<nat>)
    ensures |r| == |releases| && forall i :: 0 <= i < |r| ==> r[i] == releases[i].seat
  {
    seq(|releases|, i requires 0 <= i < |releases| => releases[i].seat)
  }

  predicate PendingFor(t: Table, seat: nat) {
    exists i :: 0 <= i < |t.offers| && t.offers[i].status == Pending && t.offers[i].seat == seat
  }

  predicate Reserved(t: Table, user: string) {
    exists i :: 0 <= i < |t.offers| && t.offers[i].status == Pending && t.offers[i].recipient == user
  }

  predicate NothingPending(t: Table) {
    forall i :: 0 <= i < |t.offers| ==> t.offers[i].status != Pending
  }

  function Host(seats: seq<Option<string>>): Option<string> {
    if seats == [] then None else if seats[0].Some? then seats[0] else Host(seats[1..])
  }

  function Count(seats: seq<Option<string>>): nat {
    if seats == [] then 0 else (if seats[0].Some? then 1 else 0) + Count(seats[1..])
  }

  // ---- advance

  // sync on a table whose match has finished.
  function Sync(t: Table): Table {
    if t.ended then t.(phase := Ended) else t
  }

  function Without(queue: seq<string>, user: string): (r: seq<string>)
    ensures forall u :: u in r ==> u in queue
    ensures NoDup(queue) ==> NoDup(r) && user !in r && forall u :: u in queue && u != user ==> u in r
  {
    if queue == [] then []
    else
      assert queue == [queue[0]] + queue[1..];
      NoDupConcat([queue[0]], queue[1..]);
      if queue[0] == user then
        assert user in Elems([queue[0]]);
        assert user in queue[1..] <==> user in Elems(queue[1..]);
        queue[1..]
      else
        var rest := Without(queue[1..], user);
        FrontApart(queue[0], queue[1..], rest);
        [queue[0]] + rest
  }

  lemma FrontApart(first: string, tail: seq<string>, rest: seq<string>)
    requires forall u :: u in rest ==> u in tail
    ensures NoDup([first] + tail) && NoDup(rest) ==> NoDup([first] + rest)
  {
    NoDupConcat([first], tail);
    NoDupConcat([first], rest);
    if NoDup([first] + tail) {
      forall u | u in Elems([first]) ensures u !in Elems(rest) {
        assert u !in Elems(tail);
      }
    }
  }

  // What becomes of a pending offer, None while it stands.
  function Fate(t: Table, o: Offer, members: set<string>, now: int): Option<OfferStatus> {
    if t.phase != Completed || o.recipient !in members then Some(Cancelled)
    else if now >= o.expiresAt then Some(Expired)
    else None
  }

  // After the first k offers have been looked at.
  function Closed(t: Table, members: set<string>, now: int, k: nat): (r: Table)
    requires k <= |t.offers|
    ensures r == t.(offers := r.offers, queue := r.queue) && |r.offers| == |t.offers|
    ensures forall i :: k <= i < |t.offers| ==> r.offers[i] == t.offers[i]
  {
    if k == 0 then t
    else
      var s := Closed(t, members, now, k - 1);
      var o := s.offers[k - 1];
      if o.status == Pending && Fate(t, o, members, now).Some? then
        s.(offers := s.offers[k - 1 := o.(status := Fate(t, o, members, now).value)],
            queue := Without(s.queue, o.recipient))
      else s
  }

  function Waiting(queue: seq<string>, t: Table, members: set<string>): (r: seq<string>)
    ensures forall u :: u in r <==> u in queue && u in members && !Seated(t, u)
    ensures NoDup(queue) ==> NoDup(r)
  {
    if queue == [] then []
    else
      assert queue == [queue[0]] + queue[1..];
      NoDupConcat([queue[0]], queue[1..]);
      var rest := Waiting(queue[1..], t, members);
      FrontApart(queue[0], queue[1..], rest);
      if queue[0] in members && !Seated(t, queue[0]) then [queue[0]] + rest else rest
  }

  // The first in the queue without a pending offer.
  function Candidate(t: Table, queue: seq<string>): (r: Option<string>)
    ensures r.Some? ==> r.value in queue && !Reserved(t, r.value)
    ensures r.None? ==> forall u :: u in queue ==> Reserved(t, u)
  {
    if queue == [] then None else if !Reserved(t, queue[0]) then Some(queue[0]) else Candidate(t, queue[1..])
  }

  // make_offer
  function Offering(t: Table, release: Release, recipient: string, now: int): Table {
    t.(offers := t.offers + [Offer(release.seat, release.user, recipient, now, now + t.offerSeconds, Pending)])
  }

  // After the first k released seats have been served.
  function Served(t: Table, now: int, k: nat): (r: Table)
    requires k <= |t.releases|
    ensures r == t.(offers := r.offers) && t.offers <= r.offers
  {
    if k == 0 then t
    else
      var s := Served(t, now, k - 1);
      var release := t.releases[k - 1];
      if (1 <= release.seat <= |t.nextSeats| && t.nextSeats[release.seat - 1].Some?) || PendingFor(s, release.seat) then s
      else
        var candidate := Candidate(s, t.queue);
        if candidate.None? then s else Offering(s, release, candidate.value, now)
  }

  function Advance(t: Table, members: set<string>, now: int): Table {
    var synced := Sync(t);
    var closed := Closed(synced, members, now, |synced.offers|);
    var waiting := closed.(queue := Waiting(closed.queue, closed, members));
    if waiting.phase != Completed then waiting else Served(waiting, now, |waiting.releases|)
  }

  // ---- what every table keeps

  ghost predicate OneSeatEach(t: Table) {
    forall i, j :: 0 <= i < j < |t.nextSeats| && t.nextSeats[i].Some? && t.nextSeats[j].Some? ==>
        t.nextSeats[i] != t.nextSeats[j]
  }

  ghost predicate ReleasesOk(t: Table) {
    && NoDup(ReleasedSeats(t.releases))
    && forall i :: 0 <= i < |t.releases| ==> 1 <= t.releases[i].seat <= |t.nextSeats| && t.nextSeats[t.releases[i].seat - 1].None?
  }

  ghost predicate OfferOk(t: Table, o: Offer) {
    && Release(o.seat, o.leaving) in t.releases && !Seated(t, o.recipient)
       && o.expiresAt == o.createdAt + t.offerSeconds
  }

  // Pending offers: released seats, unseated recipients, one to a seat and one
  // to a person.
  ghost predicate OffersOk(t: Table) {
    && (forall i :: 0 <= i < |t.offers| && t.offers[i].status == Pending ==> OfferOk(t, t.offers[i]))
    && forall i, j :: 0 <= i < j < |t.offers| && t.offers[i].status == Pending && t.offers[j].status == Pending ==>
         t.offers[i].seat != t.offers[j].seat && t.offers[i].recipient != t.offers[j].recipient
  }

  ghost predicate TableOk(t: Table) {
    && t.offerSeconds > 0 && |t.nextSeats| == t.capacity && OneSeatEach(t) && ReleasesOk(t) && OffersOk(t)
       && NoDup(t.queue)
  }

  // And between commands: the queue holds nobody seated, an ended table has no
  // offers, and no free seat waits while somebody in the queue has no offer.
  ghost predicate Rested(t: Table) {
    && (forall u :: u in t.queue ==> !Seated(t, u))
    && (t.phase == Ended ==> NothingPending(t))
    && (t.phase == Completed && !t.ended ==>
          forall i, u :: 0 <= i < |t.releases| && u in t.queue ==> PendingFor(t, t.releases[i].seat) || Reserved(t, u))
  }

  // ---- advancing keeps it

  // Closing an offer and taking its recipient out of the queue.
  lemma CloseOne(t: Table, i: nat, status: OfferStatus)
    requires TableOk(t) && i < |t.offers| && status != Pending
    ensures TableOk(t.(offers := t.offers[i := t.offers[i].(status := status)],
            queue := Without(t.queue, t.offers[i].recipient)))
  {
    hide NoDup, Without, Seated, OneSeatEach, ReleasesOk;
    var r := t.(offers := t.offers[i := t.offers[i].(status := status)],
        queue := Without(t.queue, t.offers[i].recipient));
    SeatingOnly(t, r);
    forall k | 0 <= k < |r.offers| && r.offers[k].status == Pending ensures OfferOk(r, r.offers[k]) {
      assert OfferOk(t, t.offers[k]);
    }
  }

  lemma SeatingOnly(t: Table, r: Table)
    requires OneSeatEach(t) && ReleasesOk(t) && r.nextSeats == t.nextSeats && r.releases == t.releases
    ensures OneSeatEach(r) && ReleasesOk(r) && forall u :: Seated(r, u) <==> Seated(t, u)
  {
  }

  lemma {:induction false} ClosedKeeps(t: Table, members: set<string>, now: int, k: nat)
    requires TableOk(t) && k <= |t.offers|
    ensures var r := Closed(t, members, now, k);
            && TableOk(r)
            && (forall i :: 0 <= i < |t.offers| ==> Closing(t.offers[i], r.offers[i]))
            && forall i :: 0 <= i < k && r.offers[i].status == Pending ==> Fate(t, r.offers[i], members, now).None?
  {
    hide TableOk, Without, Seated;
    if k > 0 {
      ClosedKeeps(t, members, now, k - 1);
      var s := Closed(t, members, now, k - 1);
      var o := s.offers[k - 1];
      if o.status == Pending && Fate(t, o, members, now).Some? {
        CloseOne(s, k - 1, Fate(t, o, members, now).value);
      }
    }
  }

  // An offer unchanged, or a pending one run out or called off.
  predicate Closing(o: Offer, r: Offer) {
    r == o || (o.status == Pending && r == o.(status := r.status) && (r.status == Cancelled || r.status == Expired))
  }

  lemma SameSeating(s: Table, r: Table)
    requires r.nextSeats == s.nextSeats
    ensures forall u :: Seated(r, u) <==> Seated(s, u)
  {
  }

  lemma {:induction false} ServedKeeps(t: Table, now: int, k: nat)
    requires TableOk(t) && k <= |t.releases| && forall u :: u in t.queue ==> !Seated(t, u)
    ensures var r := Served(t, now, k);
            && TableOk(r)
            && (forall i, u :: 0 <= i < k && u in t.queue ==> PendingFor(r, t.releases[i].seat) || Reserved(r, u))
            && forall i :: |t.offers| <= i < |r.offers| ==>
               r.offers[i].status == Pending && r.offers[i].expiresAt == now + t.offerSeconds
  {
    hide TableOk, Candidate, PendingFor, Reserved, Seated;
    if k > 0 {
      ServedKeeps(t, now, k - 1);
      var s, r := Served(t, now, k - 1), Served(t, now, k);
      if r != s {
        SameSeating(t, s);
        OfferingKeeps(s, k - 1, Candidate(s, t.queue).value, now);
      }
      PendingGrows(s, r);
      forall i, u | 0 <= i < k && u in t.queue ensures PendingFor(r, t.releases[i].seat) || Reserved(r, u) {
        if i < k - 1 { assert PendingFor(s, t.releases[i].seat) || Reserved(s, u); } else { ServedLast(t, now, k, u); }
      }
    }
  }

  // More offers, none of the old ones gone.
  lemma PendingGrows(s: Table, r: Table)
    requires s.offers <= r.offers
    ensures forall seat :: PendingFor(s, seat) ==> PendingFor(r, seat)
    ensures forall u :: Reserved(s, u) ==> Reserved(r, u)
  {
    forall seat | PendingFor(s, seat) ensures PendingFor(r, seat) {
      var i :| 0 <= i < |s.offers| && s.offers[i].status == Pending && s.offers[i].seat == seat;
      assert r.offers[i] == s.offers[i];
    }
    forall u | Reserved(s, u) ensures Reserved(r, u) {
      var i :| 0 <= i < |s.offers| && s.offers[i].status == Pending && s.offers[i].recipient == u;
      assert r.offers[i] == s.offers[i];
    }
  }

  lemma ServedLast(t: Table, now: int, k: nat, u: string)
    requires TableOk(t) && 0 < k <= |t.releases| && u in t.queue
    ensures PendingFor(Served(t, now, k), t.releases[k - 1].seat) || Reserved(Served(t, now, k), u)
  {
    hide NoDup;
    var s, r := Served(t, now, k - 1), Served(t, now, k);
    assert t.nextSeats[t.releases[k - 1].seat - 1].None?;
    if r != s { assert r.offers[|r.offers| - 1].seat == t.releases[k - 1].seat; }
  }

  lemma OfferingKeeps(t: Table, k: nat, recipient: string, now: int)
    requires TableOk(t) && k < |t.releases| && !Seated(t, recipient) && !Reserved(t, recipient)
             && !PendingFor(t, t.releases[k].seat)
    ensures TableOk(Offering(t, t.releases[k], recipient, now))
  {
    hide NoDup, Seated;
    var r := Offering(t, t.releases[k], recipient, now);
    SameSeating(t, r);
    forall i | 0 <= i < |r.offers| && r.offers[i].status == Pending ensures OfferOk(r, r.offers[i]) {
      if i < |t.offers| { assert OfferOk(t, t.offers[i]); }
    }
  }

  // Advancing the clock, or anything else that happened around the table.
  lemma AdvanceKeeps(t: Table, members: set<string>, now: int)
    requires TableOk(t)
    ensures var r := Advance(t, members, now);
            && TableOk(r) && Rested(r) && r.nextSeats == t.nextSeats && r.releases == t.releases && r.ended == t.ended
            && r.offerSeconds == t.offerSeconds && r.phase == Sync(t).phase
            && |t.offers| <= |r.offers| && (forall i :: 0 <= i < |t.offers| ==> Closing(t.offers[i], r.offers[i]))
            && (forall i :: 0 <= i < |r.offers| && r.offers[i].status == Pending ==> r.offers[i].expiresAt > now)
            && (forall i :: |t.offers| <= i < |r.offers| ==> r.offers[i].status == Pending)
  {
    hide TableOk, Candidate, PendingFor, Reserved, Seated, Closing;
    var synced := Sync(t);
    SyncKeeps(t);
    ClosedKeeps(synced, members, now, |synced.offers|);
    var closed := Closed(synced, members, now, |synced.offers|);
    var waiting := closed.(queue := Waiting(closed.queue, closed, members));
    TableFacts(closed);
    WaitingKeeps(closed, waiting);
    SameSeating(closed, waiting);
    if waiting.phase == Completed {
      ServedKeeps(waiting, now, |waiting.releases|);
      SameSeating(waiting, Served(waiting, now, |waiting.releases|));
      TableFacts(t);
    }
  }

  lemma TableFacts(t: Table)
    requires TableOk(t)
    ensures NoDup(t.queue) && t.offerSeconds > 0 && OneSeatEach(t)
    ensures forall k :: 0 <= k < |t.offers| && t.offers[k].status == Pending ==> OfferOk(t, t.offers[k])
  {
  }

  lemma SyncKeeps(t: Table)
    requires TableOk(t)
    ensures TableOk(Sync(t))
  {
    hide NoDup;
    SeatingOnly(t, Sync(t));
    forall k | 0 <= k < |t.offers| && t.offers[k].status == Pending ensures OfferOk(Sync(t), t.offers[k]) {
      assert OfferOk(t, t.offers[k]);
    }
  }

  lemma WaitingKeeps(t: Table, r: Table)
    requires TableOk(t) && r == t.(queue := r.queue) && NoDup(r.queue)
    ensures TableOk(r)
  {
    hide NoDup;
    SeatingOnly(t, r);
    forall k | 0 <= k < |r.offers| && r.offers[k].status == Pending ensures OfferOk(r, r.offers[k]) {
      assert OfferOk(t, t.offers[k]);
    }
  }

  // The candidate is the first in the queue who has no offer yet.
  lemma {:induction false} CandidateIsFirst(t: Table, queue: seq<string>) returns (k: nat)
    requires Candidate(t, queue).Some?
    ensures k < |queue| && queue[k] == Candidate(t, queue).value && forall j :: 0 <= j < k ==> Reserved(t, queue[j])
  {
    if !Reserved(t, queue[0]) {
      k := 0;
    } else {
      var r := CandidateIsFirst(t, queue[1..]);
      k := r + 1;
      forall j | 0 <= j < k ensures Reserved(t, queue[j]) { assert j > 0 ==> queue[j] == queue[1..][j - 1]; }
    }
  }

  // ---- commands

  datatype Command =
    | Tick
    | JoinQueue(user: string, available: bool)
    | LeaveQueue(user: string)
    | LeaveSeat(user: string)
    | Invite(user: string, seat: nat, recipient: string)
    | Accept(user: string, offer: nat, available: bool)
    | Decline(user: string, offer: nat)
    | NextMatch(user: string)
    | EndTable

  datatype Outcome = Changed(table: Table) | Same | Refused | Ready(table: Table, roster: seq<string>)

  function CancelFor(offers: seq<Offer>, user: string): (r: seq<Offer>)
    ensures |r| == |offers|
    ensures forall i :: 0 <= i < |r| ==>
              r[i] == if offers[i].status == Pending && offers[i].recipient == user then
                  offers[i].(status := Cancelled) else offers[i]
  {
    seq(|offers|, i requires 0 <= i < |offers| =>
      if offers[i].status == Pending && offers[i].recipient == user then offers[i].(status := Cancelled) else offers[i])
  }

  function Occupants(seats: seq<Option<string>>): (r: seq<string>)
    ensures |r| == Count(seats)
    ensures forall u :: u in r <==> Some(u) in seats
  {
    if seats == [] then []
    else (if seats[0].Some? then [seats[0].value] else []) + Occupants(seats[1..])
  }

  // _release_seat on this kind of table.
  function GiveUp(t: Table, user: string): Table {
    var seat := SeatIndex(t.nextSeats, user);
    if seat.None? then t
    else if t.phase == Completed then
      t.(nextSeats := t.nextSeats[seat.value := None],
         releases := if seat.value + 1 in ReleasedSeats(t.releases)
                     then t.releases[IndexOf(ReleasedSeats(t.releases), seat.value + 1)
                         := Release(seat.value + 1, user)]
                     else t.releases + [Release(seat.value + 1, user)])
    else t.(nextSeats := t.nextSeats[seat.value := None])
  }

  predicate MayInvite(t: Table, user: string) {
    t.phase == Completed && t.releases != [] && t.queue == []
    && (Host(t.nextSeats) == Some(user) || exists i :: 0 <= i < |t.releases| && t.releases[i].user == user)
  }

  // The pending offer for a seat.
  function PendingAt(offers: seq<Offer>, seat: nat): (r: Option<nat>)
    ensures r.Some? ==> r.value < |offers| && offers[r.value].status == Pending && offers[r.value].seat == seat
    ensures r.None? ==> forall i :: 0 <= i < |offers| ==> !(offers[i].status == Pending && offers[i].seat == seat)
  {
    if offers == [] then None
    else
      var r := PendingAt(offers[..|offers| - 1], seat);
      if r.Some? then r
      else if offers[|offers| - 1].status == Pending && offers[|offers| - 1].seat == seat then
          Some(|offers| - 1) else None
  }

  function DropRelease(releases: seq<Release>, seat: nat): (r: seq<Release>)
    ensures forall x :: x in r <==> x in releases && x.seat != seat
    ensures NoDup(ReleasedSeats(releases)) ==> NoDup(ReleasedSeats(r))
  {
    if releases == [] then []
    else
      var rest := DropRelease(releases[1..], seat);
      DropStep(releases, rest);
      if releases[0].seat == seat then rest else [releases[0]] + rest
  }

  lemma DropStep(releases: seq<Release>, rest: seq<Release>)
    requires releases != [] && forall x :: x in rest ==> x in releases[1..]
    ensures NoDup(ReleasedSeats(releases)) ==> NoDup(ReleasedSeats(releases[1..]))
    ensures NoDup(ReleasedSeats(releases)) && NoDup(ReleasedSeats(rest)) ==> NoDup(ReleasedSeats([releases[0]] + rest))
    ensures forall x :: x in releases <==> x == releases[0] || x in releases[1..]
  {
    hide NoDup;
    var first, tail := releases[0], releases[1..];
    assert releases == [first] + tail;
    assert ReleasedSeats(releases) == [first.seat] + ReleasedSeats(tail);
    assert ReleasedSeats([first] + rest) == [first.seat] + ReleasedSeats(rest);
    NoDupConcat([first.seat], ReleasedSeats(tail));
    NoDupConcat([first.seat], ReleasedSeats(rest));
    if NoDup(ReleasedSeats(releases)) {
      forall x | x in Elems(ReleasedSeats(rest)) ensures x in Elems(ReleasedSeats(tail)) {
        var i :| 0 <= i < |rest| && ReleasedSeats(rest)[i] == x;
        assert rest[i] in tail;
        var k :| 0 <= k < |tail| && tail[k] == rest[i];
        assert ReleasedSeats(tail)[k] == x;
      }
    }
  }

  function Answered(t: Table, k: nat, status: OfferStatus): Table
    requires k < |t.offers|
  {
    t.(offers := t.offers[k := t.offers[k].(status := status)], queue := Without(t.queue, t.offers[k].recipient))
  }

  // Taking the offered seat.
  function Taken(t: Table, k: nat): Table
    requires k < |t.offers| && 1 <= t.offers[k].seat <= |t.nextSeats|
  {
    Answered(t.(nextSeats := t.nextSeats[t.offers[k].seat - 1 := Some(t.offers[k].recipient)],
                releases := DropRelease(t.releases, t.offers[k].seat)), k, Accepted)
  }

  predicate MayStartNext(t: Table, user: string) {
    Host(t.nextSeats) == Some(user) && t.phase == Completed && Count(t.nextSeats) == t.capacity && t.releases == []
  }

  // What a command does to a table that has just been advanced.
  function Do(t: Table, command: Command, members: set<string>, now: int): Outcome {
    match command
    case Tick => Same
    case EndTable => Changed(t.(ended := true))
    case JoinQueue(user, available) =>
      if !available || Seated(t, user) || t.phase == Ended then Refused
      else if user in t.queue then Changed(t)
      else Changed(t.(queue := t.queue + [user]))
    case LeaveQueue(user) => Changed(t.(queue := Without(t.queue, user), offers := CancelFor(t.offers, user)))
    case LeaveSeat(user) => Changed(GiveUp(t, user))
    case Invite(user, seat, recipient) =>
      if !MayInvite(t, user) || seat !in ReleasedSeats(t.releases) then Refused
      else
        var release := t.releases[IndexOf(ReleasedSeats(t.releases), seat)];
        if Host(t.nextSeats) != Some(user) && release.user != user then Refused
        else
          var existing := PendingAt(t.offers, seat);
          if existing.Some? then
            if t.offers[existing.value].recipient != recipient then Refused else Changed(t)
          else if recipient !in members || Seated(t, recipient) || Reserved(t, recipient) then Refused
          else Changed(Offering(t, release, recipient, now))
    case Accept(user, k, available) =>
      if k >= |t.offers| || t.offers[k].recipient != user then Refused
      else if t.offers[k].status == Accepted then Same
      else if t.offers[k].status != Pending || t.phase != Completed || !available then Refused
      else if Seated(t, user) || !(1 <= t.offers[k].seat
          <= |t.nextSeats|) || t.nextSeats[t.offers[k].seat - 1].Some? then Refused
      else Changed(Taken(t, k))
    case Decline(user, k) =>
      if k >= |t.offers| || t.offers[k].recipient != user then Refused
      else if t.offers[k].status == Declined then Same
      else if t.offers[k].status != Pending || t.phase != Completed then Refused
      else Changed(Answered(t, k, Declined))
    case NextMatch(user) =>
      if !MayStartNext(t, user) then Refused
      else if !(forall u :: u in Occupants(t.nextSeats) ==> u in members) then Refused
      else Ready(t.(ended := true), Occupants(t.nextSeats))
  }

  function Run(t: Table, command: Command, members: set<string>, now: int): Table {
    var advanced := Advance(t, members, now);
    match Do(advanced, command, members, now)
    case Changed(table) => Advance(table, members, now)
    case Ready(table, _) => table
    case _ => advanced
  }

  // ---- commands keep it

  lemma GiveUpKeeps(t: Table, user: string)
    requires TableOk(t)
    ensures TableOk(GiveUp(t, user)) && !Seated(GiveUp(t, user), user)
  {
    hide NoDup, IndexOf, TableOk, Seated, ReleasedSeats;
    var seat := SeatIndex(t.nextSeats, user);
    if seat.Some? {
      Vacate(t, seat.value, user);
      if t.phase == Completed { AddRelease(t.(nextSeats := t.nextSeats[seat.value := None]),
          Release(seat.value + 1, user)); }
      SameSeating(t.(nextSeats := t.nextSeats[seat.value := None]), GiveUp(t, user));
    } else {
      Absent(t, user);
    }
  }

  lemma Absent(t: Table, user: string)
    requires SeatIndex(t.nextSeats, user).None?
    ensures !Seated(t, user)
  {
  }

  lemma Vacate(t: Table, i: nat, user: string)
    requires TableOk(t) && i < |t.nextSeats| && t.nextSeats[i] == Some(user)
    ensures var r := t.(nextSeats := t.nextSeats[i := None]); TableOk(r) && !Seated(r, user)
    ensures i + 1 !in ReleasedSeats(t.releases)
  {
    hide NoDup;
    var r := t.(nextSeats := t.nextSeats[i := None]);
    forall k | 0 <= k < |t.releases| ensures t.releases[k].seat
        != i + 1 { assert t.nextSeats[t.releases[k].seat - 1].None?; }
    assert forall u :: Seated(r, u) ==> Seated(t, u);
    forall k | 0 <= k < |r.offers| && r.offers[k].status
        == Pending ensures OfferOk(r, r.offers[k]) { assert OfferOk(t, t.offers[k]); }
    forall k | 0 <= k < |r.nextSeats| ensures r.nextSeats[k] != Some(user) {
      if k != i && t.nextSeats[k].Some? { assert t.nextSeats[k] != t.nextSeats[i]; }
    }
  }

  lemma AddRelease(t: Table, release: Release)
    requires TableOk(t) && 1 <= release.seat <= |t.nextSeats| && t.nextSeats[release.seat - 1].None?
    requires release.seat !in ReleasedSeats(t.releases)
    ensures TableOk(t.(releases := t.releases + [release]))
  {
    hide NoDup;
    var r := t.(releases := t.releases + [release]);
    ReleaseAdded(t.releases, release);
    SameSeating(t, r);
    forall k | 0 <= k < |r.offers| && r.offers[k].status
        == Pending ensures OfferOk(r, r.offers[k]) { assert OfferOk(t, t.offers[k]); }
  }

  lemma ReleaseAdded(releases: seq<Release>, release: Release)
    requires NoDup(ReleasedSeats(releases)) && release.seat !in ReleasedSeats(releases)
    ensures NoDup(ReleasedSeats(releases + [release]))
  {
    hide NoDup;
    assert ReleasedSeats(releases + [release]) == ReleasedSeats(releases) + [release.seat];
    OneSeat(release.seat);
    NoDupConcat(ReleasedSeats(releases), [release.seat]);
  }

  lemma OneSeat(seat: nat)
    ensures NoDup([seat])
  {
  }

  lemma TakenKeeps(t: Table, k: nat)
    requires TableOk(t) && k < |t.offers| && t.offers[k].status == Pending && 1 <= t.offers[k].seat <= |t.nextSeats|
    requires !Seated(t, t.offers[k].recipient) && t.nextSeats[t.offers[k].seat - 1].None?
    ensures TableOk(Taken(t, k))
  {
    hide NoDup, Without, DropRelease;
    var o := t.offers[k];
    var r := Taken(t, k);
    assert OfferOk(t, o);
    assert forall u :: Seated(r, u) ==> Seated(t, u) || u == o.recipient;
    forall i | 0 <= i < |r.releases| ensures 1 <= r.releases[i].seat <= |r.nextSeats|
        && r.nextSeats[r.releases[i].seat - 1].None? {
      assert r.releases[i] in r.releases;
      var j :| 0 <= j < |t.releases| && t.releases[j] == r.releases[i];
    }
    forall i | 0 <= i < |r.offers| && r.offers[i].status == Pending ensures OfferOk(r, r.offers[i]) {
      assert OfferOk(t, t.offers[i]) && t.offers[i].recipient != o.recipient && t.offers[i].seat != o.seat;
    }
  }

  lemma CancelKeeps(t: Table, user: string)
    requires TableOk(t)
    ensures TableOk(t.(queue := Without(t.queue, user), offers := CancelFor(t.offers, user)))
  {
    hide NoDup, Without, Seated;
    var r := t.(queue := Without(t.queue, user), offers := CancelFor(t.offers, user));
    SeatingOnly(t, r);
    forall i | 0 <= i < |r.offers| && r.offers[i].status
        == Pending ensures OfferOk(r, r.offers[i]) { assert OfferOk(t, t.offers[i]); }
  }

  lemma DoKeeps(t: Table, command: Command, members: set<string>, now: int)
    requires TableOk(t)
    ensures match Do(t, command, members, now)
            case Changed(table) => TableOk(table)
            case Ready(table, _) => TableOk(table)
            case _ => true
  {
    hide TableOk, Seated, Reserved, MayInvite, Without, Answered, Taken, GiveUp, PendingAt, Offering;
    match command
    case Tick =>
    case EndTable => EndKeeps(t);
    case JoinQueue(user, available) => JoinKeeps(t, user);
    case LeaveQueue(user) => CancelKeeps(t, user);
    case LeaveSeat(user) => GiveUpKeeps(t, user);
    case Invite(user, seat, recipient) =>
      if Do(t, command, members, now).Changed? && PendingAt(t.offers, seat).None? {
        NotPending(t, seat);
        OfferingKeeps(t, IndexOf(ReleasedSeats(t.releases), seat), recipient, now);
      }
    case Accept(user, k, available) =>
      if Do(t, command, members, now).Changed? { TakenKeeps(t, k); }
    case Decline(user, k) =>
      if Do(t, command, members, now).Changed? { DeclineKeeps(t, k); }
    case NextMatch(user) => EndKeeps(t);
  }

  lemma NotPending(t: Table, seat: nat)
    requires PendingAt(t.offers, seat).None?
    ensures !PendingFor(t, seat)
  {
  }

  lemma DeclineKeeps(t: Table, k: nat)
    requires TableOk(t) && k < |t.offers|
    ensures TableOk(Answered(t, k, Declined))
  {
    CloseOne(t, k, Declined);
  }

  lemma EndKeeps(t: Table)
    requires TableOk(t)
    ensures TableOk(t.(ended := true))
  {
    hide NoDup;
    var r := t.(ended := true);
    SeatingOnly(t, r);
    forall i | 0 <= i < |r.offers| && r.offers[i].status
        == Pending ensures OfferOk(r, r.offers[i]) { assert OfferOk(t, t.offers[i]); }
  }

  lemma JoinKeeps(t: Table, user: string)
    requires TableOk(t)
    ensures user !in t.queue ==> TableOk(t.(queue := t.queue + [user]))
  {
    if user !in t.queue {
      JoinDistinct(t.queue, user);
      WaitingKeeps(t, t.(queue := t.queue + [user]));
    }
  }

  lemma JoinDistinct(queue: seq<string>, user: string)
    requires NoDup(queue) && user !in queue
    ensures NoDup(queue + [user])
  {
  }

  // Every command leaves the table sound and at rest.
  lemma RunKeeps(t: Table, command: Command, members: set<string>, now: int)
    requires TableOk(t)
    ensures TableOk(Run(t, command, members, now)) && Rested(Run(t, command, members, now))
  {
    hide TableOk, Rested, Advance, Do, Closing, PendingFor;
    AdvanceKeeps(t, members, now);
    var advanced := Advance(t, members, now);
    DoKeeps(advanced, command, members, now);
    match Do(advanced, command, members, now)
    case Changed(table) => AdvanceKeeps(table, members, now);
    case Ready(table, _) => RetiredRests(advanced, command, members, now);
    case _ =>
  }

  // A table handed on to its next match is left as it was, and ended.
  lemma RetiredRests(t: Table, command: Command, members: set<string>, now: int)
    requires Rested(t) && Do(t, command, members, now).Ready?
    ensures Rested(Do(t, command, members, now).table)
  {
    hide Occupants, Reserved, PendingFor;
    assert Do(t, command, members, now).table == t.(ended := true);
    SameSeating(t, t.(ended := true));
    assert t.phase == Completed;
  }

  // ---- runs

  datatype Move = Move(command: Command, members: set<string>, now: int)

  function Start(roster: seq<string>, offerSeconds: int): (t: Table)
    ensures |t.nextSeats| == |roster| && forall i :: 0 <= i < |roster| ==> t.nextSeats[i] == Some(roster[i])
  {
    Table(|roster|, offerSeconds, false, Completed,
        seq(|roster|, i requires 0 <= i < |roster| => Some(roster[i])), [], [], [])
  }

  function Reached(roster: seq<string>, offerSeconds: int, moves: seq<Move>): Table {
    if moves == [] then Start(roster, offerSeconds)
    else
      var last := moves[|moves| - 1];
      Run(Reached(roster, offerSeconds, moves[..|moves| - 1]), last.command, last.members, last.now)
  }

  // Over every interleaving, from any roster without repetition: nobody holds
  // two seats, pending offers name released empty seats and unseated people, one
  // each, and the queue is served as far as it can be.
  lemma {:induction false} RunOk(roster: seq<string>, offerSeconds: int, moves: seq<Move>)
    requires NoDup(roster) && offerSeconds > 0
    ensures TableOk(Reached(roster, offerSeconds, moves)) && Rested(Reached(roster, offerSeconds, moves))
  {
    hide Run, Rested, TableOk;
    if moves == [] {
      StartOk(roster, offerSeconds);
    } else {
      var last := moves[|moves| - 1];
      RunOk(roster, offerSeconds, moves[..|moves| - 1]);
      RunKeeps(Reached(roster, offerSeconds, moves[..|moves| - 1]), last.command, last.members, last.now);
    }
  }

  lemma StartOk(roster: seq<string>, offerSeconds: int)
    requires NoDup(roster) && offerSeconds > 0
    ensures TableOk(Start(roster, offerSeconds)) && Rested(Start(roster, offerSeconds))
  {
  }

  // An accepted offer had not run out, its seat was free, and it is the only
  // seat that changes hands.
  lemma AcceptedInTime(t: Table, user: string, k: nat, available: bool, members: set<string>, now: int)
    requires TableOk(t)
    ensures var advanced := Advance(t, members, now); var outcome := Do(advanced,
            Command.Accept(user, k, available), members, now);
            outcome.Changed? ==>
              && k < |advanced.offers| && advanced.offers[k].recipient == user && now < advanced.offers[k].expiresAt
              && var seat := advanced.offers[k].seat;
                 && Release(seat, advanced.offers[k].leaving) in advanced.releases
                 && 1 <= seat <= |advanced.nextSeats| && advanced.nextSeats[seat - 1].None?
                 && outcome.table.nextSeats == advanced.nextSeats[seat - 1 := Some(user)]
                 && !Seated(advanced, user) && seat !in ReleasedSeats(outcome.table.releases)
  {
    hide TableOk, Rested, Advance, Closing, Do, Seated, DropRelease, ReleasedSeats;
    AdvanceKeeps(t, members, now);
    var advanced := Advance(t, members, now);
    if Do(advanced, Command.Accept(user, k, available), members,
        now).Changed? { AcceptTakes(advanced, user, k, available, members, now); }
  }

  lemma AcceptTakes(t: Table, user: string, k: nat, available: bool, members: set<string>, now: int)
    requires TableOk(t) && Do(t, Command.Accept(user, k, available), members, now).Changed?
    ensures var outcome := Do(t, Command.Accept(user, k, available), members, now);
            && k < |t.offers| && t.offers[k].recipient == user && t.offers[k].status == Pending
            && var seat := t.offers[k].seat;
               && Release(seat, t.offers[k].leaving) in t.releases
               && 1 <= seat <= |t.nextSeats| && t.nextSeats[seat - 1].None?
               && outcome.table.nextSeats == t.nextSeats[seat - 1 := Some(user)]
               && !Seated(t, user) && seat !in ReleasedSeats(outcome.table.releases)
  {
    hide TableOk, Seated, DropRelease, ReleasedSeats, Without;
    TableFacts(t);
    DropGone(t.releases, t.offers[k].seat);
  }

  lemma DropGone(releases: seq<Release>, seat: nat)
    ensures seat !in ReleasedSeats(DropRelease(releases, seat))
  {
    var rest := DropRelease(releases, seat);
    forall i | 0 <= i < |rest| ensures ReleasedSeats(rest)[i] != seat {
      assert rest[i] in rest;
    }
  }

  // The next match starts only with every seat filled, by different people of
  // the room, and with no offer outstanding.
  lemma NextMatchReady(t: Table, user: string, members: set<string>, now: int)
    requires TableOk(t)
    ensures var advanced := Advance(t, members, now); var outcome := Do(advanced, NextMatch(user), members, now);
            outcome.Ready? ==>
              NothingPending(advanced) && |outcome.roster| == t.capacity && NoDup(outcome.roster)
                  && forall u :: u in outcome.roster ==> u in members
  {
    hide TableOk, Rested, Advance, Closing, NoDup;
    AdvanceKeeps(t, members, now);
    var advanced := Advance(t, members, now);
    if advanced.releases == [] { NoReleases(advanced); }
    TableFacts(advanced);
    OccupantsDistinct(advanced.nextSeats);
    SameCapacity(t, members, now);
  }

  lemma SameCapacity(t: Table, members: set<string>, now: int)
    ensures Advance(t, members, now).capacity == t.capacity
  {
  }

  lemma NoReleases(t: Table)
    requires TableOk(t) && t.releases == []
    ensures NothingPending(t)
  {
    forall i | 0 <= i < |t.offers| ensures t.offers[i].status != Pending {
      if t.offers[i].status == Pending { TableFacts(t); }
    }
  }

  lemma {:induction false} OccupantsDistinct(seats: seq<Option<string>>)
    requires forall i, j :: 0 <= i < j < |seats| && seats[i].Some? && seats[j].Some? ==> seats[i] != seats[j]
    ensures NoDup(Occupants(seats))
  {
    if seats != [] {
      OccupantsDistinct(seats[1..]);
      var rest := Occupants(seats[1..]);
      if seats[0].Some? {
        forall i | 0 <= i < |rest| ensures rest[i] != seats[0].value {
          assert rest[i] in rest;
          var k :| 0 <= k < |seats[1..]| && seats[1..][k] == Some(rest[i]);
          assert seats[k + 1] != seats[0];
        }
      }
    }
  }
}
