// First come, first served: the queue for seats over whole runs.
module TableFairness {
  import opened Prelude
  import opened TableRotation

  // a waits ahead of b.
  predicate Before(queue: seq<string>, a: string, b: string) {
    exists i, j :: 0 <= i < j < |queue| && queue[i] == a && queue[j] == b
  }

  // Nobody is offered a seat over the head of somebody who waits.
  predicate Fair(t: Table, a: string, b: string) {
    Reserved(t, b) ==> Reserved(t, a)
  }

  // ---- joining

  // Whoever joins waits behind everybody who is waiting, and the others keep their
  // places; joining again changes nothing.
  lemma JoinsBehind(t: Table, user: string, available: bool, members: set<string>, now: int)
    ensures var r := Do(t, JoinQueue(user, available), members, now);
            && (r.Changed? <==> available && !Seated(t, user) && t.phase != Ended)
            && (r.Changed? || r.Refused?)
            && (r.Changed? ==> r.table == t.(queue := r.table.queue) && user in r.table.queue)
            && (r.Changed? && user in t.queue ==> r.table == t)
            && (r.Changed? && user !in t.queue ==>
                  && (forall u :: u in t.queue ==> Before(r.table.queue, u, user))
                  && (forall a, b :: Before(t.queue, a, b) ==> Before(r.table.queue, a, b))
                  && forall u :: u in r.table.queue ==> u == user || u in t.queue)
  {
    hide Seated;
    var r := Do(t, JoinQueue(user, available), members, now);
    if r.Changed? && user !in t.queue {
      var queue := r.table.queue;
      assert queue == t.queue + [user];
      forall u | u in t.queue ensures Before(queue, u, user) {
        var i :| 0 <= i < |t.queue| && t.queue[i] == u;
        assert queue[i] == u && queue[|t.queue|] == user;
      }
      forall a, b | Before(t.queue, a, b) ensures Before(queue, a, b) { OrderInLonger(t.queue, [user], a, b); }
    }
  }

  lemma OrderInLonger(queue: seq<string>, more: seq<string>, a: string, b: string)
    requires Before(queue, a, b)
    ensures Before(queue + more, a, b)
  {
    var i, j :| 0 <= i < j < |queue| && queue[i] == a && queue[j] == b;
    assert (queue + more)[i] == a && (queue + more)[j] == b;
  }

  // ---- leaving keeps the order of the rest

  // a comes first of all, or both come later.
  lemma {:induction false} OrderStep(queue: seq<string>, a: string, b: string)
    requires queue != []
    ensures Before(queue, a, b) <==> (queue[0] == a && b in queue[1..]) || Before(queue[1..], a, b)
  {
    if Before(queue, a, b) {
      var i, j :| 0 <= i < j < |queue| && queue[i] == a && queue[j] == b;
      assert queue[1..][j - 1] == b;
      if i > 0 { assert queue[1..][i - 1] == a; }
    }
    if queue[0] == a && b in queue[1..] {
      var j :| 0 <= j < |queue[1..]| && queue[1..][j] == b;
      assert queue[j + 1] == b;
    }
    if Before(queue[1..], a, b) {
      var i, j :| 0 <= i < j < |queue[1..]| && queue[1..][i] == a && queue[1..][j] == b;
      assert queue[i + 1] == a && queue[j + 1] == b;
    }
  }

  lemma {:induction false} WithoutOrders(queue: seq<string>, user: string, a: string, b: string)
    requires Before(queue, a, b) && a in Without(queue, user) && b in Without(queue, user) && NoDup(queue)
    ensures Before(Without(queue, user), a, b)
  {
    OrderStep(queue, a, b);
    assert NoDup(queue[1..]) && queue[0] !in queue[1..];
    var r := Without(queue, user);
    if queue[0] != user {
      assert r[1..] == Without(queue[1..], user);
      OrderStep(r, a, b);
      if Before(queue[1..], a, b) {
        assert a in queue[1..] && b in queue[1..] by {
          var i, j :| 0 <= i < j < |queue[1..]| && queue[1..][i] == a && queue[1..][j] == b;
        }
        WithoutOrders(queue[1..], user, a, b);
      }
    }
  }

  lemma {:induction false} WaitingOrders(queue: seq<string>, t: Table, members: set<string>, a: string, b: string)
    requires Before(queue, a, b) && a in Waiting(queue, t, members) && b in Waiting(queue, t, members)
    ensures Before(Waiting(queue, t, members), a, b)
  {
    OrderStep(queue, a, b);
    var r := Waiting(queue, t, members);
    var rest := Waiting(queue[1..], t, members);
    if r != rest {
      assert r == [queue[0]] + rest;
      assert r[1..] == rest;
      OrderStep(r, a, b);
    }
    if Before(queue[1..], a, b) {
      assert a in queue[1..] && b in queue[1..] by {
        var i, j :| 0 <= i < j < |queue[1..]| && queue[1..][i] == a && queue[1..][j] == b;
      }
      WaitingOrders(queue[1..], t, members, a, b);
    }
  }

  // ---- advancing

  // Who stays in the queue keeps the offer that was pending, or has none as before.
  ghost predicate Steady(t: Table, r: Table, u: string) {
    u in r.queue ==> u in t.queue && (Reserved(r, u) <==> Reserved(t, u))
  }

  lemma CloseSteady(s: Table, i: nat, status: OfferStatus, u: string)
    requires TableOk(s) && i < |s.offers| && status != Pending
    ensures var r := s.(offers := s.offers[i := s.offers[i].(status := status)],
                        queue := Without(s.queue, s.offers[i].recipient));
            Steady(s, r, u)
  {
    hide Without;
    TableFacts(s);
    hide TableOk;
    var r := s.(offers := s.offers[i := s.offers[i].(status := status)],
                queue := Without(s.queue, s.offers[i].recipient));
    if u in r.queue {
      assert u != s.offers[i].recipient;
      if Reserved(s, u) {
        var k :| 0 <= k < |s.offers| && s.offers[k].status == Pending && s.offers[k].recipient == u;
        assert r.offers[k] == s.offers[k];
      }
      if Reserved(r, u) {
        var k :| 0 <= k < |r.offers| && r.offers[k].status == Pending && r.offers[k].recipient == u;
        assert s.offers[k] == r.offers[k];
      }
    }
  }

  // What closing offers keeps for two people.
  ghost predicate PairSteady(t: Table, r: Table, a: string, b: string) {
    && Steady(t, r, a) && Steady(t, r, b)
    && (Before(t.queue, a, b) && a in r.queue && b in r.queue ==> Before(r.queue, a, b))
  }

  lemma ClosePair(s: Table, i: nat, status: OfferStatus, a: string, b: string)
    requires TableOk(s) && i < |s.offers| && status != Pending
    ensures PairSteady(s, s.(offers := s.offers[i := s.offers[i].(status := status)],
                       queue := Without(s.queue, s.offers[i].recipient)), a, b)
  {
    hide Without, Steady, Before;
    CloseSteady(s, i, status, a);
    CloseSteady(s, i, status, b);
    TableFacts(s);
    hide TableOk, NoDup;
    var queue := Without(s.queue, s.offers[i].recipient);
    if Before(s.queue, a, b) && a in queue && b in queue {
      WithoutOrders(s.queue, s.offers[i].recipient, a, b);
    }
  }

  lemma PairThrough(t: Table, s: Table, r: Table, a: string, b: string)
    requires PairSteady(t, s, a, b) && PairSteady(s, r, a, b)
    ensures PairSteady(t, r, a, b)
  {
  }

  lemma {:induction false} ClosedSteady(t: Table, members: set<string>, now: int, k: nat, a: string, b: string)
    requires TableOk(t) && k <= |t.offers|
    ensures PairSteady(t, Closed(t, members, now, k), a, b)
  {
    hide TableOk, Without, PairSteady, Fate, Closed;
    if k == 0 {
      ClosedStep(t, members, now, 0);
      PairSelf(t, a, b);
    } else {
      ClosedSound(t, members, now, k - 1);
      ClosedSteady(t, members, now, k - 1, a, b);
      ClosedStep(t, members, now, k);
      var s := Closed(t, members, now, k - 1);
      var o := s.offers[k - 1];
      if o.status == Pending && Fate(t, o, members, now).Some? {
        FateCloses(t, o, members, now);
        ClosePair(s, k - 1, Fate(t, o, members, now).value, a, b);
        PairThrough(t, s, Closed(t, members, now, k), a, b);
      }
    }
  }

  lemma PairSelf(t: Table, a: string, b: string)
    ensures PairSteady(t, t, a, b)
  {
  }

  lemma ClosedSound(t: Table, members: set<string>, now: int, k: nat)
    requires TableOk(t) && k <= |t.offers|
    ensures TableOk(Closed(t, members, now, k)) && |Closed(t, members, now, k).offers| == |t.offers|
  {
    hide TableOk, Closed, Closing, Fate;
    ClosedKeeps(t, members, now, k);
  }

  lemma ClosedStep(t: Table, members: set<string>, now: int, k: nat)
    requires k <= |t.offers|
    ensures k == 0 ==> Closed(t, members, now, k) == t
    ensures k > 0 ==>
              var s := Closed(t, members, now, k - 1);
              var o := s.offers[k - 1];
              var fate := Fate(t, o, members, now);
              Closed(t, members, now, k) ==
              if o.status == Pending && fate.Some? then
                s.(offers := s.offers[k - 1 := o.(status := fate.value)], queue := Without(s.queue, o.recipient))
              else s
  {
    hide Fate, Without;
  }

  lemma FateCloses(t: Table, o: Offer, members: set<string>, now: int)
    ensures Fate(t, o, members, now) != Some(Pending)
  {
  }

  // Serving the released seats asks the waiting in their order.
  lemma {:induction false} ServedFair(t: Table, now: int, k: nat, a: string, b: string)
    requires TableOk(t) && k <= |t.releases| && Before(t.queue, a, b) && Fair(t, a, b)
    ensures Fair(Served(t, now, k), a, b)
  {
    hide TableOk, Candidate, PendingFor, Before, Reserved;
    if k > 0 {
      ServedFair(t, now, k - 1, a, b);
      var s, r := Served(t, now, k - 1), Served(t, now, k);
      if r != s {
        var recipient := Candidate(s, t.queue).value;
        TableFacts(t);
        NextInOrder(s, t.queue, a, b);
        ReservedNext(s, t.releases[k - 1], recipient, now, a);
        ReservedNext(s, t.releases[k - 1], recipient, now, b);
      }
    }
  }

  lemma ReservedNext(s: Table, release: Release, recipient: string, now: int, u: string)
    ensures Reserved(Offering(s, release, recipient, now), u) <==> Reserved(s, u) || u == recipient
  {
    var r := Offering(s, release, recipient, now);
    if Reserved(s, u) { PendingGrows(s, r); }
    if u == recipient { assert r.offers[|s.offers|].recipient == u; }
  }

  // When it is b's turn to be asked, a has been.
  lemma NextInOrder(s: Table, queue: seq<string>, a: string, b: string)
    requires Before(queue, a, b) && NoDup(queue)
    ensures Candidate(s, queue) == Some(b) ==> Reserved(s, a)
  {
    hide Reserved, Candidate;
    if Candidate(s, queue) == Some(b) {
      var k := CandidateIsFirst(s, queue);
      var i, j :| 0 <= i < j < |queue| && queue[i] == a && queue[j] == b;
      assert j == k;
    }
  }

  lemma AdvanceFair(t: Table, members: set<string>, now: int, a: string, b: string)
    requires TableOk(t) && Before(t.queue, a, b) && Fair(t, a, b)
    ensures var r := Advance(t, members, now);
            a in r.queue && b in r.queue ==> Before(r.queue, a, b) && Fair(r, a, b)
  {
    hide TableOk, Before, Reserved, Seated, NoDup;
    var synced := Sync(t);
    SyncKeeps(t);
    ClosedKeeps(synced, members, now, |synced.offers|);
    ClosedSteady(synced, members, now, |synced.offers|, a, b);
    var closed := Closed(synced, members, now, |synced.offers|);
    var waiting := closed.(queue := Waiting(closed.queue, closed, members));
    TableFacts(closed);
    WaitingKeeps(closed, waiting);
    SameOffers(t, synced, a);
    SameOffers(t, synced, b);
    SameOffers(closed, waiting, a);
    SameOffers(closed, waiting, b);
    if a in waiting.queue && b in waiting.queue {
      WaitingOrders(closed.queue, closed, members, a, b);
      if waiting.phase == Completed { ServedFair(waiting, now, |waiting.releases|, a, b); }
    }
  }

  lemma SameOffers(t: Table, r: Table, u: string)
    requires r.offers == t.offers
    ensures Reserved(r, u) <==> Reserved(t, u)
  {
  }

  // ---- commands

  // What a command makes of the table.
  function After(t: Table, command: Command, members: set<string>, now: int): Table {
    match Do(t, command, members, now)
    case Changed(table) => table
    case Ready(table, _) => table
    case _ => t
  }

  // No command moves two people who go on waiting, or gives either an offer.
  lemma DoFair(t: Table, command: Command, members: set<string>, now: int, a: string, b: string)
    requires TableOk(t) && Before(t.queue, a, b) && Fair(t, a, b)
    ensures var r := After(t, command, members, now);
            a in r.queue && b in r.queue ==> Before(r.queue, a, b) && Fair(r, a, b)
  {
    TableFacts(t);
    hide TableOk, Reserved, Seated, Without, NoDup, MayStartNext, Occupants, PendingAt, GiveUp, DropRelease;
    var r := After(t, command, members, now);
    assert t.queue != [];
    match command
    case JoinQueue(user, available) =>
      JoinsBehind(t, user, available, members, now);
      hide Before;
      SameOffers(t, r, a);
      SameOffers(t, r, b);
    case LeaveQueue(user) =>
      hide Before;
      if a in r.queue && b in r.queue {
        WithoutOrders(t.queue, user, a, b);
        CancelOthers(t, user, a);
        CancelOthers(t, user, b);
      }
    case Accept(user, k, available) =>
      hide Before;
      if r != t { AnsweredFair(t, r, k, OfferStatus.Accepted, a, b); }
    case Decline(user, k) =>
      hide Before;
      if r != t { AnsweredFair(t, r, k, Declined, a, b); }
    case LeaveSeat(user) =>
      hide Before;
      GiveUpQueue(t, user);
      SameOffers(t, r, a);
      SameOffers(t, r, b);
    case _ =>
      SameOffers(t, r, a);
      SameOffers(t, r, b);
  }

  lemma GiveUpQueue(t: Table, user: string)
    ensures GiveUp(t, user).queue == t.queue && GiveUp(t, user).offers == t.offers
  {
  }

  lemma CancelOthers(t: Table, user: string, u: string)
    requires NoDup(t.queue) && u in Without(t.queue, user)
    ensures var r := t.(queue := Without(t.queue, user), offers := CancelFor(t.offers, user));
            Reserved(r, u) <==> Reserved(t, u)
  {
    hide Without;
    var r := t.(queue := Without(t.queue, user), offers := CancelFor(t.offers, user));
    assert u != user;
    forall k | 0 <= k < |t.offers| && t.offers[k].recipient == u ensures r.offers[k] == t.offers[k] {}
    if Reserved(t, u) {
      var k :| 0 <= k < |t.offers| && t.offers[k].status == Pending && t.offers[k].recipient == u;
      assert r.offers[k] == t.offers[k];
    }
  }

  // Answering an offer takes the recipient out of the queue and touches no other.
  lemma AnsweredFair(t: Table, r: Table, k: nat, status: OfferStatus, a: string, b: string)
    requires TableOk(t) && Before(t.queue, a, b) && Fair(t, a, b) && k < |t.offers| && status != Pending
    requires r.offers == t.offers[k := t.offers[k].(status := status)]
    requires r.queue == Without(t.queue, t.offers[k].recipient)
    ensures a in r.queue && b in r.queue ==> Before(r.queue, a, b) && Fair(r, a, b)
  {
    hide Without, Before;
    TableFacts(t);
    CloseSteady(t, k, status, a);
    CloseSteady(t, k, status, b);
    var s := t.(offers := r.offers, queue := r.queue);
    SameOffers(s, r, a);
    SameOffers(s, r, b);
    hide TableOk, Reserved;
    if a in r.queue && b in r.queue { WithoutOrders(t.queue, t.offers[k].recipient, a, b); }
  }

  // ---- runs

  // This person waits before the move, while it is carried out, and after it.
  predicate WaitsThrough(t: Table, move: Move, u: string) {
    var advanced := Advance(t, move.members, move.now);
    && u in t.queue && u in advanced.queue
    && u in After(advanced, move.command, move.members, move.now).queue
    && u in Run(t, move.command, move.members, move.now).queue
  }

  lemma MoveFair(t: Table, move: Move, a: string, b: string)
    requires TableOk(t) && Before(t.queue, a, b) && Fair(t, a, b)
    requires WaitsThrough(t, move, a) && WaitsThrough(t, move, b)
    ensures var r := Run(t, move.command, move.members, move.now);
            Before(r.queue, a, b) && Fair(r, a, b)
  {
    hide TableOk, Before, Fair, Advance, Do, Rested, Closing;
    AdvanceKeeps(t, move.members, move.now);
    AdvanceFair(t, move.members, move.now, a, b);
    var advanced := Advance(t, move.members, move.now);
    DoKeeps(advanced, move.command, move.members, move.now);
    DoFair(advanced, move.command, move.members, move.now, a, b);
    var done := After(advanced, move.command, move.members, move.now);
    if Do(advanced, move.command, move.members, move.now).Changed? {
      AdvanceFair(done, move.members, move.now, a, b);
    }
  }

  // Whoever waits ahead of another stays ahead as long as both go on waiting, and is
  // offered a seat no later: the other never has an offer that the first has not.
  lemma {:induction false} FirstComeFirstServed(roster: seq<string>, offerSeconds: int, moves: seq<Move>,
    i: nat, j: nat,
    a: string, b: string)
    requires NoDup(roster) && offerSeconds > 0 && i <= j <= |moves|
    requires Before(Reached(roster, offerSeconds, moves[..i]).queue, a, b)
    requires !Reserved(Reached(roster, offerSeconds, moves[..i]), b)
    requires forall k :: i <= k < j ==>
               && WaitsThrough(Reached(roster, offerSeconds, moves[..k]), moves[k], a)
               && WaitsThrough(Reached(roster, offerSeconds, moves[..k]), moves[k], b)
    ensures var t := Reached(roster, offerSeconds, moves[..j]);
            Before(t.queue, a, b) && (Reserved(t, b) ==> Reserved(t, a))
    decreases j
  {
    hide TableOk, Before, Run, Rested, Reserved, WaitsThrough;
    if i < j {
      FirstComeFirstServed(roster, offerSeconds, moves, i, j - 1, a, b);
      RunOk(roster, offerSeconds, moves[..j - 1]);
      assert moves[..j][..j - 1] == moves[..j - 1];
      MoveFair(Reached(roster, offerSeconds, moves[..j - 1]), moves[j - 1], a, b);
    }
  }
}
