// The table as the object its host keeps, changed in place.
module TableService {
  import opened Prelude
  import opened TableRotation

  class TableState {
    const capacity: nat
    const offerSeconds: int
    // Whether the hosted game has been ended.
    var ended: bool
    var phase: Phase
    var nextSeats: seq<Option<string>>
    var releases: seq<Release>
    var offers: seq<Offer>
    var queue: seq<string>

    function View(): Table reads this {
      Table(capacity, offerSeconds, ended, phase, nextSeats, releases, offers, queue)
    }

    constructor (roster: seq<string>, offerSeconds: int)
      ensures View() == Start(roster, offerSeconds)
    {
      this.capacity, this.offerSeconds := |roster|, offerSeconds;
      ended, phase, releases, offers, queue := false, Completed, [], [], [];
      nextSeats := seq(|roster|, i requires 0 <= i < |roster| => Some(roster[i]));
    }

    method MakeOffer(release: Release, recipient: string, now: int)
      modifies this`offers
      ensures View() == Offering(old(View()), release, recipient, now)
    {
      offers := offers + [Offer(release.seat, release.user, recipient, now, now + offerSeconds, Pending)];
    }

    method Close(k: nat, status: OfferStatus)
      requires k < |offers|
      modifies this`offers, this`queue
      ensures View() == Answered(old(View()), k, status)
    {
      var recipient := offers[k].recipient;
      offers := offers[k := offers[k].(status := status)];
      queue := Without(queue, recipient);
    }

    // The offers that no longer stand.
    method CloseOffers(members: set<string>, now: int)
      modifies this`offers, this`queue
      ensures View() == Closed(old(View()), members, now, |old(offers)|)
    {
      hide Without;
      ghost var was := View();
      var k := 0;
      while k < |offers|
        invariant k <= |offers| == |was.offers|
        invariant View() == Closed(was, members, now, k)
      {
        ghost var before := View();
        var offer := offers[k];
        if offer.status == Pending {
          if phase != Completed || offer.recipient !in members {
            Close(k, Cancelled);
          } else if now >= offer.expiresAt {
            Close(k, Expired);
          }
        }
        ClosedNext(was, members, now, k);
        k := k + 1;
      }
    }

    // The first in the queue who is not reserved.
    method NextCandidate(reserved: set<string>) returns (candidate: Option<string>)
      requires forall u :: u in reserved <==> Reserved(View(), u)
      ensures candidate == Candidate(View(), queue)
    {
      var k := 0;
      while k < |queue| && queue[k] in reserved
        invariant k <= |queue|
        invariant Candidate(View(), queue) == Candidate(View(), queue[k..])
      {
        assert queue[k..][1..] == queue[k + 1..];
        k := k + 1;
      }
      candidate := if k < |queue| then Some(queue[k]) else None;
    }

    method Recipients() returns (reserved: set<string>)
      ensures forall u :: u in reserved <==> Reserved(View(), u)
    {
      reserved := set o | o in offers && o.status == Pending :: o.recipient;
      forall u | u in reserved ensures Reserved(View(), u) {
        var o :| o in offers && o.status == Pending && o.recipient == u;
        var i :| 0 <= i < |offers| && offers[i] == o;
      }
    }

    // The released seats, in order, to the people waiting, in order.
    method ServeQueue(now: int)
      modifies this`offers
      ensures View() == Served(old(View()), now, |releases|)
    {
      ghost var was := View();
      var reserved := Recipients();
      var k := 0;
      while k < |releases|
        invariant k <= |releases|
        invariant View() == Served(was, now, k)
        invariant forall u :: u in reserved <==> Reserved(View(), u)
      {
        var release := releases[k];
        if !(1 <= release.seat <= |nextSeats| && nextSeats[release.seat - 1].Some?) && !PendingFor(View(), release.seat) {
          var candidate := NextCandidate(reserved);
          if candidate.Some? {
            ghost var before := View();
            MakeOffer(release, candidate.value, now);
            reserved := reserved + {candidate.value};
            ReservedBy(before, release, candidate.value, now);
          }
        }
        k := k + 1;
      }
    }

    method AdvanceTo(members: set<string>, now: int)
      modifies this
      ensures View() == Advance(old(View()), members, now)
    {
      if ended { phase := Ended; }
      CloseOffers(members, now);
      queue := Waiting(queue, View(), members);
      if phase == Completed { ServeQueue(now); }
    }

    method ReleaseSeat(user: string)
      modifies this`nextSeats, this`releases
      ensures View() == GiveUp(old(View()), user)
    {
      var seat := SeatIndex(nextSeats, user);
      if seat.Some? {
        nextSeats := nextSeats[seat.value := None];
        if phase == Completed {
          var seats := ReleasedSeats(releases);
          var release := Release(seat.value + 1, user);
          releases := if release.seat in seats then releases[IndexOf(seats, release.seat) := release]
              else releases + [release];
        }
      }
    }

    method RemoveFromQueue(user: string)
      modifies this`queue, this`offers
      ensures View() == old(View()).(queue := Without(old(queue), user), offers := CancelFor(old(offers), user))
    {
      hide Without;
      ghost var before := View();
      queue := Without(queue, user);
      ghost var was := offers;
      var k := 0;
      while k < |offers|
        invariant k <= |offers| == |was|
        invariant forall i :: 0 <= i < k ==> offers[i] == CancelFor(was, user)[i]
        invariant forall i :: k <= i < |was| ==> offers[i] == was[i]
        invariant View() == before.(queue := Without(before.queue, user), offers := offers)
      {
        if offers[k].status == Pending && offers[k].recipient == user {
          offers := offers[k := offers[k].(status := Cancelled)];
        }
        k := k + 1;
      }
      assert offers == CancelFor(was, user);
    }

    // Accepting or declining; the answer is false when the table refuses it.
    method AnswerOffer(user: string, k: nat, accept: bool, available: bool, ghost members: set<string>,
      ghost now: int) returns (ok: bool, changed: bool)
      modifies this`nextSeats, this`releases, this`offers, this`queue
      ensures Followed(old(View()), if accept then Command.Accept(user, k, available)
              else Decline(user, k), members, now, View(), ok, changed)
    {
      var expected := if accept then Accepted else Declined;
      if k >= |offers| || offers[k].recipient != user { return false, false; }
      if offers[k].status == expected { return true, false; }
      if offers[k].status != Pending || phase != Completed { return false, false; }
      if accept {
        var seat := offers[k].seat;
        if !available || Seated(View(), user) || !(1 <= seat
            <= |nextSeats|) || nextSeats[seat - 1].Some? { return false, false; }
        nextSeats := nextSeats[seat - 1 := Some(user)];
        releases := DropRelease(releases, seat);
      }
      offers := offers[k := offers[k].(status := expected)];
      queue := Without(queue, user);
      return true, true;
    }

    method InviteSeat(user: string, seat: nat, recipient: string, members: set<string>, now: int) returns (ok: bool)
      modifies this`offers
      ensures Followed(old(View()), Invite(user, seat, recipient), members, now, View(), ok, ok)
    {
      var seats := ReleasedSeats(releases);
      if !MayInvite(View(), user) || seat !in seats { return false; }
      var release := releases[IndexOf(seats, seat)];
      if Host(nextSeats) != Some(user) && release.user != user { return false; }
      var existing := PendingAt(offers, seat);
      if existing.Some? { return offers[existing.value].recipient == recipient; }
      if recipient !in members || Seated(View(), recipient) || Reserved(View(), recipient) { return false; }
      MakeOffer(release, recipient, now);
      return true;
    }

    method Obey(command: Command, members: set<string>, now: int) returns (ok: bool, changed: bool)
      requires !command.NextMatch?
      modifies this
      ensures Followed(old(View()), command, members, now, View(), ok, changed)
    {
      hide Without, CancelFor, GiveUp, MayInvite;
      ok, changed := true, true;
      match command
      case Tick => changed := false;
      case EndTable => ended := true;
      case JoinQueue(user, available) =>
        if !available || Seated(View(), user) || phase == Ended {
          return false, false;
        } else if user !in queue {
          queue := queue + [user];
        }
      case LeaveQueue(user) => RemoveFromQueue(user);
      case LeaveSeat(user) => ReleaseSeat(user);
      case Invite(user, seat, recipient) =>
        ok := InviteSeat(user, seat, recipient, members, now);
        changed := ok;
      case Accept(user, k, available) => ok, changed := AnswerOffer(user, k, true, available, members, now);
      case Decline(user, k) => ok, changed := AnswerOffer(user, k, false, true, members, now);
    }

    // A command: the table is brought up to date, changed, and brought up to
    // date again.
    method TableCommand(command: Command, members: set<string>, now: int) returns (ok: bool)
      requires !command.NextMatch?
      modifies this
      ensures View() == Run(old(View()), command, members, now)
      ensures ok <==> !Do(Advance(old(View()), members, now), command, members, now).Refused?
    {
      hide Advance, Do;
      AdvanceTo(members, now);
      var changed: bool;
      ok, changed := Obey(command, members, now);
      if changed { AdvanceTo(members, now); }
    }

    // Handing the seats on to a next match.
    method StartNextMatch(user: string, members: set<string>, now: int) returns (roster: Option<seq<string>>)
      modifies this
      ensures View() == Run(old(View()), NextMatch(user), members, now)
      ensures roster == match Do(Advance(old(View()), members, now), NextMatch(user), members,
              now) case Ready(_, r) => Some(r) case _ => None
    {
      hide Advance;
      AdvanceTo(members, now);
      var seated := Occupants(nextSeats);
      if !MayStartNext(View(), user) || !(forall u :: u in seated ==> u in members) { return None; }
      ended := true;
      return Some(seated);
    }
  }

  lemma ClosedNext(t: Table, members: set<string>, now: int, k: nat)
    requires k < |t.offers|
    ensures var s := Closed(t, members, now, k);
            var fate := Fate(t, s.offers[k], members, now);
            Closed(t, members, now, k + 1) == if s.offers[k].status == Pending && fate.Some? then
                Answered(s, k, fate.value) else s
  {
  }

  // What a command left behind is what the table's rules say.
  ghost predicate Followed(t: Table, command: Command, members: set<string>, now: int, after: Table, ok: bool,
    changed: bool) {
    match Do(t, command, members, now)
    case Changed(table) => ok && changed && after == table
    case Same => ok && !changed && after == t
    case Refused => !ok && !changed && after == t
    case Ready(_, _) => false
  }

  lemma ReservedBy(t: Table, release: Release, recipient: string, now: int)
    ensures forall u :: Reserved(Offering(t, release, recipient, now), u) <==> Reserved(t, u) || u == recipient
  {
    var r := Offering(t, release, recipient, now);
    forall u | Reserved(t, u) || u == recipient ensures Reserved(r, u) {
      if u == recipient {
        assert r.offers[|t.offers|].recipient == u;
      } else {
        var i :| 0 <= i < |t.offers| && t.offers[i].status == Pending && t.offers[i].recipient == u;
        assert r.offers[i] == t.offers[i];
      }
    }
  }
}
