// Folding, leaving, the final show and side-shows: the commands that can end a
// round. Each either passes the turn, hands it to whoever has to answer, or
// settles the round, and every way of doing so keeps the invariant. Leaving may
// have to call off a pending show or side-show first.
module FlushShows {
  import opened Prelude
  import opened Cards
  import opened Dealing
  import opened FlushEvaluator
  import opened FlushModels
  import opened FlushAudit
  import opened FlushSteps
  import opened FlushInvariant
  import opened FlushBetting
  import opened FlushSettlement

  // ---- a round that goes on without new money

  lemma CalmRound(s: State, c: State, specs: seq<Spec>)
    requires Inv(s) && s.status == InProgress && s.pendingShow.None? && SameRound(s, c)
             && SeatsKept(s.players, c.players)
    requires c.pot == s.pot && forall k :: 0 <= k < |s.players| ==>
             c.players[k].contribution == s.players[k].contribution
    requires c.currentSeenBet == s.currentSeenBet && c.currentBlindBet == s.currentBlindBet
    requires c.pendingShow.None? && c.pendingSideShow.None? && c.revealed == s.revealed && SideShowsOk(c)
    requires |Actives(c.players)| >= 2
    requires c.currentSeat.Some? && c.currentSeat.value < |c.players| && IsActive(c.players[c.currentSeat.value])
    requires specs != [] && NoMoney(specs)
    ensures Inv(Commit(s, c, specs))
  {
    hide Inv, SeatKept, SideShowsOk, DealtOk, MoneyOk, StakesOk, NoDup, HistoryOk, CountersOk, Roster,
      Actives, RulesFormed;
    InRound(s);
    Paid0(s, c, specs);
    StakesCommit(s, c);
    NoShow(s, c);
    InRoundKeeps(s, c, specs, 0, 0);
  }

  lemma NoShow(s: State, c: State)
    requires ShowOk(s) && s.pendingShow.None? && s.status == InProgress && s.settlement == None
    requires c.pendingShow.None? && c.pendingSideShow.None? && c.revealed == s.revealed
    ensures ShowOk(c) && SideShowOk(c)
  {
  }

  // Turning an active seat to folded.
  lemma FoldedSeat(s: State, seat: nat)
    requires Inv(s) && s.status == InProgress && seat < |s.players| && IsActive(s.players[seat])
    ensures var q := s.players[seat].(status := Folded); var players := s.players[seat := q];
            && WithPlayer(s.players, q) == players && SeatsKept(s.players, players)
            && |Actives(players)| == |Actives(s.players)| - 1 >= 1
            && forall k :: 0 <= k < |s.players| ==> players[k].contribution == s.players[k].contribution
  {
    hide Inv, StakesOk, ShowOk, SideShowOk, SideShowsOk, DealtOk, MoneyOk, HistoryOk;
    InRound(s);
    var q := s.players[seat].(status := Folded);
    WithPlayerIs(s.config, s.players, seat, q);
    OneSeatKept(s.players, seat, q);
    ActivesFold(s.players, seat, q);
  }

  // ---- one player left

  lemma AloneKeeps(s: State, c: State, specs: seq<Spec>)
    requires Inv(s) && s.status == InProgress && Ending(s, c) && |Actives(c.players)| == 1 && NoMoney(specs)
    ensures Keeps(s, Finish(Settle(c, None), specs)) && Finish(Settle(c, None), specs).Accepted?
  {
    hide Inv, SeatsKept, SideShowsOk, DealtOk, MoneyOk, StakesOk, NoDup, HistoryOk, CountersOk, SideShowOk,
      BettingOk, RulesFormed, Only, Keeps,
      Shares, Settled, Finish;
    InRound(s);
    RosterKept(s, c);
    hide Roster;
    ActiveIds(c.config, c.players);
    var active := Actives(c.players);
    var seat := SomeActive(c.players);
    SeatIs(c.config, c.players, seat);
    var reason := if c.pendingShow.Some? then ShowFold else LastPlayerRemaining;
    var shown := if c.pendingShow.Some? then c.revealed else [];
    SettledIs(c, reason, [active[0].id], shown, None);
    var d := Settled(c, reason, [active[0].id], shown, None).value;
    assert Settle(c, None) == Some(d);
    assert Ids(active)[0] == active[0].id;
    assert Elems([active[0].id]) <= Elems(Ids(active));
    assert ShownOk(c, shown) by { ShownKept(s, c, s.revealed); }
    assert ClosesTable(c, d);
    if c.pendingShow.Some? { LastOfTwo(s, c, seat); }
    FinishKeeps(s, c, d, specs);
  }

  // During a show the one who stays is the requester or the target.
  lemma LastOfTwo(s: State, c: State, seat: nat)
    requires Roster(s.config, s.players) && NoDup(s.config.playerIds) && ShowOk(s) && s.pendingShow.Some?
    requires SeatsKept(s.players, c.players) && seat < |c.players| && IsActive(c.players[seat])
    ensures c.players[seat].id == s.pendingShow.value.requester || c.players[seat].id == s.pendingShow.value.target
  {
    assert SeatKept(s.players[seat], c.players[seat]);
    assert IsActive(s.players[seat]);
    hide SeatsKept, ShownOk, Actives;
    ActiveIds(s.config, s.players);
    assert s.players[seat].id in Elems(Ids(Actives(s.players)));
  }

  // ---- folding

  // It is this player who must answer the pending show.
  predicate AnswersShow(s: State, id: string) {
    s.status == InProgress && s.pendingShow.Some? && s.pendingShow.value.target == id
  }

  lemma FoldKeeps(s: State, id: string)
    requires Inv(s)
    ensures Keeps(s, Fold(s, id))
    ensures Fold(s, id).Accepted? <==> if s.pendingShow.Some? then AnswersShow(s, id) else RequireTurn(s, id).Turn?
  {
    hide Inv, RequireTurn, SeatsKept, Actives, Settle, Finish, RespondShow, Passed, WithPlayer;
    if s.pendingShow.Some? {
      RespondKeeps(s, id, false);
    } else if RequireTurn(s, id).Turn? {
      TurnIs(s, id);
      var seat := RequireTurn(s, id).seat;
      FoldedSeat(s, seat);
      FoldEnding(s, FoldedAt(s, seat), seat);
      var c := FoldedAt(s, seat);
      hide Keeps, Ending;
      if |Actives(c.players)| == 1 {
        AloneKeeps(s, c, [Note(PlayerFolded, id)]);
      } else {
        PassKeeps(s, c, seat, [Note(PlayerFolded, id)]);
      }
    }
  }

  // The turn passes to the next active seat.
  lemma PassKeeps(s: State, c: State, from: nat, specs: seq<Spec>)
    requires Inv(s) && s.status == InProgress && s.pendingShow.None? && SameRound(s, c)
             && SeatsKept(s.players, c.players)
    requires c.pot == s.pot && forall k :: 0 <= k < |s.players| ==>
             c.players[k].contribution == s.players[k].contribution
    requires c.currentSeenBet == s.currentSeenBet && c.currentBlindBet == s.currentBlindBet
    requires c.pendingShow.None? && c.pendingSideShow.None? && c.revealed == s.revealed
    requires SideShowsOk(c) || c.sideShows == s.sideShows
    requires |Actives(c.players)| >= 2 && c.currentSeat == Some(from) && from < |c.players| && NoMoney(specs)
    ensures Keeps(s, Passed(c, specs)) && Passed(c, specs).Accepted?
  {
    hide Inv, SeatsKept, Actives, NextSeat, SideShowsOk;
    if c.sideShows == s.sideShows { InRound(s); SideShowsKept(s, c); }
    var seat := SomeActive(c.players);
    NextExists(c.players, from, seat);
    var next := NextSeat(c.players, from);
    var r := Passed(c, specs);
    assert r == Accepted(c.(currentSeat := next), specs + [Note(TurnChanged, c.players[next.value].id)]);
    SideShowsCommit(c, r.candidate);
    CalmRound(s, r.candidate, r.specs);
  }

  // ---- leaving the table

  function FoldedAt(s: State, seat: nat): State
    requires seat < |s.players|
  {
    s.(players := s.players[seat := s.players[seat].(status := Folded)])
  }

  // The state a departure leaves, and its events.
  function Left(s: State, seat: nat): State
    requires seat < |s.players|
    requires s.pendingSideShow.Some? ==> s.pendingSideShow.value.requester in s.config.playerIds
  {
    if Interrupts(s, FoldedAt(s, seat), s.players[seat].id) then
      FoldedAt(s, seat).(pendingSideShow := None,
          currentSeat := Some(IndexOf(s.config.playerIds, s.pendingSideShow.value.requester)))
    else FoldedAt(s, seat)
  }

  function LeftSpecs(s: State, seat: nat): (r: seq<Spec>)
    requires seat < |s.players|
    ensures r != [] && NoMoney(r)
  {
    [Note(PlayerFolded, s.players[seat].id)]
    + if Interrupts(s, FoldedAt(s, seat), s.players[seat].id) then [DeclinedSpec(s.pendingSideShow.value)] else []
  }

  lemma LeaveShape(s: State, seat: nat)
    requires Inv(s) && s.status == InProgress && seat < |s.players| && IsActive(s.players[seat])
    requires SeatOf(s.players, s.players[seat].id) == Some(seat)
    ensures s.pendingSideShow.Some? ==> s.pendingSideShow.value.requester in s.config.playerIds
    ensures FoldForLeave(s, s.players[seat].id) ==
            if |Actives(FoldedAt(s, seat).players)| == 1 then Finish(Settle(Left(s, seat), None), LeftSpecs(s, seat))
            else if CurrentId(s) == Some(s.players[seat].id) || Interrupts(s, FoldedAt(s, seat), s.players[seat].id) then
              Passed(Left(s, seat), LeftSpecs(s, seat))
            else Accepted(Left(s, seat), LeftSpecs(s, seat))
  {
    if s.pendingSideShow.Some? { SidePlaces(s); }
    FoldedSeat(s, seat);
    hide Inv, SeatsKept, Settle, Actives, Finish, Passed, CurrentId, SeatOf, WithPlayer;
  }

  // Where a pending side-show sits.
  lemma SidePlaces(s: State)
    requires Inv(s) && s.status == InProgress && s.pendingSideShow.Some?
    ensures var r := s.pendingSideShow.value;
            r.requester in s.config.playerIds && r.target in s.config.playerIds && r.requester != r.target
            && CurrentId(s) == Some(r.target) && s.pendingShow.None? && |Actives(s.players)| >= 3
  {
    InRound(s);
    hide Inv, SideShowsOk, DealtOk, MoneyOk, StakesOk, HistoryOk, NoDup, Actives;
  }

  lemma LeaveKeeps(s: State, id: string)
    requires Inv(s)
    ensures Keeps(s, FoldForLeave(s, id))
    ensures FoldForLeave(s, id).Accepted? <==>
              s.status == InProgress && SeatOf(s.players, id).Some? && IsActive(s.players[SeatOf(s.players, id).value])
  {
    var found := SeatOf(s.players, id);
    if found.Some? && s.status == InProgress && IsActive(s.players[found.value]) {
      var seat := found.value;
      LeaveShape(s, seat);
      ActiveLeave(s, seat);
    }
  }

  lemma ActiveLeave(s: State, seat: nat)
    requires Inv(s) && s.status == InProgress && seat < |s.players| && IsActive(s.players[seat])
    requires SeatOf(s.players, s.players[seat].id) == Some(seat)
    ensures Keeps(s, FoldForLeave(s, s.players[seat].id)) && FoldForLeave(s, s.players[seat].id).Accepted?
  {
    var id := s.players[seat].id;
    LeaveShape(s, seat);
    hide FoldForLeave, Inv, SeatOf, Settle, Keeps, Finish, Passed, CurrentId;
    if |Actives(FoldedAt(s, seat).players)| == 1 {
      LeaveAlone(s, seat);
    } else if Interrupts(s, FoldedAt(s, seat), id) {
      LeaveInterrupts(s, seat);
    } else if s.pendingSideShow.Some? {
      LeaveBeside(s, seat);
    } else {
      LeaveQuietly(s, seat);
    }
  }

  lemma LeaveInterrupts(s: State, seat: nat)
    requires Inv(s) && s.status == InProgress && seat < |s.players| && IsActive(s.players[seat])
    requires s.pendingSideShow.Some? ==> s.pendingSideShow.value.requester in s.config.playerIds
    requires |Actives(FoldedAt(s, seat).players)| != 1 && Interrupts(s, FoldedAt(s, seat), s.players[seat].id)
    ensures Keeps(s, Passed(Left(s, seat), LeftSpecs(s, seat))) && Passed(Left(s, seat), LeftSpecs(s, seat)).Accepted?
  {
    SidePlaces(s);
    InRound(s);
    FoldEnding(s, Left(s, seat), seat);
    hide Inv, SeatsKept, Actives, Keeps, Passed, LeftSpecs, SideShowsOk, ShowOk, SideShowOk, BettingOk,
      StakesOk, DealtOk, MoneyOk, HistoryOk, NoDup,
      CountersOk;
    PassKeeps(s, Left(s, seat), IndexOf(s.config.playerIds, s.pendingSideShow.value.requester), LeftSpecs(s, seat));
  }

  lemma LeaveAlone(s: State, seat: nat)
    requires Inv(s) && s.status == InProgress && seat < |s.players| && IsActive(s.players[seat])
    requires s.pendingSideShow.Some? ==> s.pendingSideShow.value.requester in s.config.playerIds
    requires |Actives(FoldedAt(s, seat).players)| == 1
    ensures Keeps(s, Finish(Settle(Left(s, seat), None), LeftSpecs(s, seat)))
            && Finish(Settle(Left(s, seat), None), LeftSpecs(s, seat)).Accepted?
  {
    if s.pendingSideShow.Some? { SideInterrupted(s, seat); }
    FoldEnding(s, Left(s, seat), seat);
    hide Inv, SeatsKept, Actives, Settle, Keeps, Finish, Ending, Left, LeftSpecs, FoldedAt;
    AloneKeeps(s, Left(s, seat), LeftSpecs(s, seat));
  }

  // With one player left a side-show cannot stay pending.
  lemma SideInterrupted(s: State, seat: nat)
    requires seat < |s.players| && s.pendingSideShow.Some? && s.pendingSideShow.value.requester in s.config.playerIds
    requires |Actives(FoldedAt(s, seat).players)| == 1
    ensures Left(s, seat).pendingSideShow.None?
  {
  }

  lemma FoldEnding(s: State, c: State, seat: nat)
    requires Inv(s) && s.status == InProgress && seat < |s.players| && IsActive(s.players[seat])
    requires c == FoldedAt(s, seat).(pendingSideShow := None, currentSeat := c.currentSeat)
    ensures Ending(s, c) && |Actives(c.players)| == |Actives(s.players)| - 1
  {
    FoldedSeat(s, seat);
    hide Inv, SeatsKept, Actives;
  }

  // A show is between exactly two.
  lemma ShowIsBetweenTwo(s: State)
    requires Inv(s) && s.status == InProgress && s.pendingShow.Some?
    ensures |Actives(s.players)| == 2 && s.pendingSideShow.None?
  {
    InRound(s);
    hide Inv, Actives, NoDup, SideShowsOk, DealtOk, MoneyOk, StakesOk, HistoryOk;
    ActiveIds(s.config, s.players);
    var r := s.pendingShow.value;
    assert |{r.requester, r.target}| == 2;
  }

  // No side-show pending: the turn moves only if it was theirs.
  lemma LeaveQuietly(s: State, seat: nat)
    requires Inv(s) && s.status == InProgress && seat < |s.players| && IsActive(s.players[seat])
             && s.pendingSideShow.None?
    requires |Actives(FoldedAt(s, seat).players)| != 1
    ensures Keeps(s, if CurrentId(s) == Some(s.players[seat].id) then Passed(Left(s, seat), LeftSpecs(s, seat))
                     else Accepted(Left(s, seat), LeftSpecs(s, seat)))
    ensures CurrentId(s) == Some(s.players[seat].id) ==> Passed(Left(s, seat), LeftSpecs(s, seat)).Accepted?
  {
    FoldedSeat(s, seat);
    InRound(s);
    if s.pendingShow.Some? { ShowIsBetweenTwo(s); }
    hide Inv, SeatsKept, SideShowsOk, DealtOk, MoneyOk, StakesOk, HistoryOk, NoDup, CountersOk, Actives,
      ShowOk, SideShowOk, Passed, RulesFormed,
      Interrupts, LeftSpecs;
    var c := Left(s, seat);
    assert c == FoldedAt(s, seat) by { NoInterrupt(s, seat); }
    SideShowsKept(s, c);
    if CurrentId(s) == Some(s.players[seat].id) {
      PassKeeps(s, c, s.currentSeat.value, LeftSpecs(s, seat));
    } else {
      CalmRound(s, c, LeftSpecs(s, seat));
    }
  }

  lemma NoInterrupt(s: State, seat: nat)
    requires seat < |s.players| && s.pendingSideShow.None?
    ensures Left(s, seat) == FoldedAt(s, seat)
  {
  }

  // Somebody else leaves and three still play: the side-show stays pending.
  lemma LeaveBeside(s: State, seat: nat)
    requires Inv(s) && s.status == InProgress && seat < |s.players| && IsActive(s.players[seat])
             && s.pendingSideShow.Some?
    requires s.pendingSideShow.value.requester in s.config.playerIds
    requires !Interrupts(s, FoldedAt(s, seat), s.players[seat].id)
    ensures CurrentId(s) != Some(s.players[seat].id)
    ensures Keeps(s, Accepted(Left(s, seat), LeftSpecs(s, seat)))
  {
    hide Inv, SideShowsOk, DealtOk, MoneyOk, StakesOk, HistoryOk, NoDup, CountersOk, Actives, RulesFormed,
      LeftSpecs, SeatsKept, ShowOk, SideShowOk,
      BettingOk, Interrupts, CurrentId, Roster;
    SidePlaces(s);
    FoldedSeat(s, seat);
    InRound(s);
    BesideTurn(s, seat);
    var c := Left(s, seat);
    SideShowsKept(s, c);
    BesideOk(s, seat);
    StakesCommit(s, c);
    var specs := LeftSpecs(s, seat);
    Paid0(s, c, specs);
    InRoundKeeps(s, c, specs, 0, 0);
  }

  lemma BesideTurn(s: State, seat: nat)
    requires seat < |s.players| && s.pendingSideShow.Some? && CurrentId(s) == Some(s.pendingSideShow.value.target)
    requires !Interrupts(s, FoldedAt(s, seat), s.players[seat].id)
    ensures CurrentId(s) != Some(s.players[seat].id)
  {
  }

  lemma BesideOk(s: State, seat: nat)
    requires ShowOk(s) && SideShowOk(s) && BettingOk(s) && seat < |s.players| && IsActive(s.players[seat])
             && s.pendingSideShow.Some?
    requires !Interrupts(s, FoldedAt(s, seat), s.players[seat].id) && s.pendingShow.None? && s.status == InProgress
    ensures ShowOk(FoldedAt(s, seat)) && SideShowOk(FoldedAt(s, seat)) && BettingOk(FoldedAt(s, seat))
  {
    hide Actives, SeatOf;
    var c := FoldedAt(s, seat);
    assert s.revealed == [] && c.revealed == [];
  }

  // ---- the final show

  lemma ShowKeeps(s: State, id: string)
    requires Inv(s)
    ensures Keeps(s, RequestShow(s, id)) && (RequestShow(s, id).Accepted? <==> ShowBlock(s, id).None?)
  {
    hide Inv, RequireTurn, ShowBlock, SeatsKept, Actives, ShowTarget, StakesOk, BettingOk, ShowOk, SideShowOk,
      SideShowsOk, ShowCost, OtherActive,
      Showing, ShowingSpec, Commit, WithPlayer;
    if RequireTurn(s, id).Turn? && ShowBlock(s, id).None? {
      var seat, other := RequireTurn(s, id).seat, ShowTarget(s, id);
      ShowIsTwo(s, id);
      ShowShape(s, id);
      ShowParts(s, seat, other);
      ShowCommitted(s, seat, other);
    }
  }

  lemma ShowIsTwo(s: State, id: string)
    requires ShowBlock(s, id).None?
    ensures |Actives(s.players)| == 2
  {
    hide RequireTurn, Actives;
  }

  lemma ShowCommitted(s: State, seat: nat, other: nat)
    requires Inv(s) && s.status == InProgress && seat < |s.players| && other < |s.players|
             && s.players[seat].id in s.config.playerIds
    requires var c := Showing(s, seat, other);
             && ShowCost(s, s.players[seat]) >= 0 && SeatsKept(s.players, c.players)
             && StakesOk(c) && BettingOk(c) && ShowOk(c) && SideShowOk(c) && SideShowsOk(c)
    ensures Inv(Commit(s, Showing(s, seat, other),
            [ShowingSpec(s, seat, other)] + [Note(TurnChanged, s.players[other].id)]))
  {
    hide Inv, SeatsKept, Actives, StakesOk, BettingOk, ShowOk, SideShowOk, SideShowsOk, ShowCost, ShowKnown;
    var c, first := Showing(s, seat, other), ShowingSpec(s, seat, other);
    var rest := [Note(TurnChanged, s.players[other].id)];
    Paid1(s, c, first, rest, seat, ShowCost(s, s.players[seat]));
    ShowRecorded(s, c, first, rest[0]);
    InRoundKeeps(s, c, [first] + rest, seat, ShowCost(s, s.players[seat]));
  }

  function ShowTarget(s: State, id: string): (other: nat)
    requires Inv(s) && RequireTurn(s, id).Turn? && ShowBlock(s, id).None?
    ensures other < |s.players| && other != RequireTurn(s, id).seat && IsActive(s.players[other])
    ensures OtherActive(s.players, id) == Some(other)
  {
    TwoActive(s, RequireTurn(s, id).seat);
    OtherActive(s.players, id).value
  }

  // Two active players: besides the mover there is exactly one other.
  lemma TwoActive(s: State, seat: nat)
    requires Inv(s) && s.status == InProgress && |Actives(s.players)| == 2 && seat < |s.players|
             && IsActive(s.players[seat])
    ensures OtherActive(s.players, s.players[seat].id).Some?
    ensures Elems(Ids(Actives(s.players))) == {s.players[seat].id,
            s.players[OtherActive(s.players, s.players[seat].id).value].id}
  {
    hide Inv, Actives, NoDup, RulesFormed, OtherActive, Elems, Ids, Roster, ShowOk, SideShowOk, SideShowsOk,
      DealtOk, MoneyOk, StakesOk, HistoryOk,
      BettingOk;
    InRoster(s);
    ActiveIds(s.config, s.players);
    var id := s.players[seat].id;
    var ids := Ids(Actives(s.players));
    assert id in ids;
    var other := OtherActive(s.players, id);
    if other.None? {
      forall x | x in ids ensures x == id {}
      OneId(ids, id);
    } else {
      TwoIds(ids, id, s.players[other.value].id);
    }
  }

  lemma InRoster(s: State)
    requires Inv(s)
    ensures Roster(s.config, s.players) && NoDup(s.config.playerIds)
  {
    ConfigDistinct(s.config);
  }

  lemma OneId(ids: seq<string>, id: string)
    requires forall x :: x in ids ==> x == id
    ensures |Elems(ids)| <= 1
  {
    forall x | x in Elems(ids) ensures x in {id} {}
    SubsetFull(Elems(ids), {id});
  }

  lemma TwoIds(ids: seq<string>, a: string, b: string)
    requires a in ids && b in ids && a != b && |Elems(ids)| == 2
    ensures Elems(ids) == {a, b}
  {
    assert {a, b} <= Elems(ids);
    SubsetFull({a, b}, Elems(ids));
  }

  lemma {:induction false} OtherSame(a: seq<Player>, b: seq<Player>, id: string)
    requires |a| == |b| && forall k :: 0 <= k < |a| ==> a[k].id == b[k].id && a[k].status == b[k].status
    ensures OtherActive(a, id) == OtherActive(b, id)
  {
    if a != [] { OtherSame(a[..|a| - 1], b[..|b| - 1], id); }
  }

  // The state and events of a request to show.
  function Showing(s: State, seat: nat, other: nat): State
    requires seat < |s.players| && other < |s.players|
  {
    var p := s.players[seat];
    s.(players := s.players[seat := p.(contribution := p.contribution + ShowCost(s, p))], pot := s.pot + ShowCost(s, p),
       pendingShow := Some(ShowRequest(p.id, s.players[other].id)), revealed := [ShownHand(p.id, p.cards)],
        currentSeat := Some(other))
  }

  function ShowingSpec(s: State, seat: nat, other: nat): Spec
    requires seat < |s.players| && other < |s.players|
  {
    var p := s.players[seat];
    Spec(ShowRequested, Some(p.id), ShowCost(s, p), [], [ShownHand(p.id, p.cards)], Some(s.players[other].id), None)
  }

  lemma ShowShape(s: State, id: string)
    requires Inv(s) && RequireTurn(s, id).Turn? && ShowBlock(s, id).None?
    ensures var seat := RequireTurn(s, id).seat; var other := ShowTarget(s, id);
            RequestShow(s, id) ==
            Accepted(Showing(s, seat, other), [ShowingSpec(s, seat, other)] + [Note(TurnChanged, s.players[other].id)])
  {
    hide Inv, RequireTurn, ShowBlock, Actives, NoDup, SideShowsOk, DealtOk, MoneyOk, StakesOk, HistoryOk,
      ShowOk, SideShowOk, BettingOk,
      ShowCost, RulesFormed, Roster, CountersOk, ShowTarget, OtherActive, WithPlayer, SeatOf, CurrentId;
    var seat := RequireTurn(s, id).seat;
    var other := ShowTarget(s, id);
    InRound(s);
    ShowSame(s, seat, other);
  }

  lemma ShowSame(s: State, seat: nat, other: nat)
    requires Roster(s.config, s.players) && NoDup(s.config.playerIds) && seat < |s.players|
             && other < |s.players| && seat != other
    requires OtherActive(s.players, s.players[seat].id) == Some(other)
    ensures var p := s.players[seat]; var players := WithPlayer(s.players,
            p.(contribution := p.contribution + ShowCost(s, p)));
            && players == s.players[seat := p.(contribution := p.contribution + ShowCost(s, p))]
            && OtherActive(players, p.id) == Some(other) && players[other].id == s.players[other].id
            && s.players[other].id in s.config.playerIds && IndexOf(s.config.playerIds, s.players[other].id) == other
  {
    hide ShowCost, OtherActive;
    var p := s.players[seat];
    var q := p.(contribution := p.contribution + ShowCost(s, p));
    WithPlayerIs(s.config, s.players, seat, q);
    OtherSame(s.players, s.players[seat := q], p.id);
    SeatIs(s.config, s.players, other);
  }

  lemma ShowParts(s: State, seat: nat, other: nat)
    requires Inv(s) && s.status == InProgress && s.pendingShow.None? && s.pendingSideShow.None?
    requires seat < |s.players| && other < |s.players| && other != seat && IsActive(s.players[seat])
             && IsActive(s.players[other])
    requires |Actives(s.players)| == 2 && OtherActive(s.players, s.players[seat].id) == Some(other)
    ensures var c := Showing(s, seat, other);
            && ShowCost(s, s.players[seat]) >= 0 && SeatsKept(s.players, c.players)
               && s.players[seat].id in s.config.playerIds
            && StakesOk(c) && BettingOk(c) && ShowOk(c) && SideShowOk(c) && SideShowsOk(c)
  {
    hide Inv, Actives, NoDup, SideShowsOk, DealtOk, MoneyOk, HistoryOk, StakesOk, ShowCost, RulesFormed,
      OtherActive, BettingOk, ShowOk, SideShowOk, CountersOk;
    InRound(s);
    var p := s.players[seat];
    var c := Showing(s, seat, other);
    CostNonnegative(s, p);
    CountsMore(p, ShowCost(s, p));
    OneSeatKept(s.players, seat, p.(contribution := p.contribution + ShowCost(s, p)));
    TwoActive(s, seat);
    DistinctIds(s.config, s.players, seat, other);
    ActivesSame(s.players, c.players);
    SideShowsKept(s, c);
    StakesCommit(s, c);
    RosterKept(s, c);
    SeatIs(c.config, c.players, seat);
    hide SeatKept, SeatsKept;
    ShowingOk(s, c, seat, other);
  }

  lemma CountsMore(p: Player, amount: int)
    requires CountersOk(p) && amount >= 0
    ensures CountersOk(p.(contribution := p.contribution + amount))
  {
  }

  lemma ShowingOk(s: State, c: State, seat: nat, other: nat)
    requires seat < |s.players| && other < |s.players| && other != seat && IsActive(s.players[other])
             && s.status == InProgress
    requires c == Showing(s, seat, other) && s.players[seat].id != s.players[other].id
             && s.pendingSideShow.None? && BettingOk(s)
    requires |Actives(c.players)| == 2 && Elems(Ids(Actives(c.players))) == {s.players[seat].id, s.players[other].id}
    requires SeatOf(c.players, s.players[seat].id) == Some(seat)
    ensures BettingOk(c) && ShowOk(c) && SideShowOk(c)
  {
    hide Actives, SeatOf, Elems;
    assert Showers(c.revealed) == [s.players[seat].id];
  }

  lemma CostNonnegative(s: State, p: Player)
    requires StakesOk(s) && RulesFormed(s.config.rules)
    ensures ShowCost(s, p) >= 0 && RequiredBet(s, p) >= 1
  {
    var rules := s.config.rules;
    MulLe(1, rules.initialBlindBet, rules.multiplier);
    CeilCovers(s.currentSeenBet, rules.multiplier);
    assert RequiredBet(s, p) >= 1;
    MulLe(0, RequiredBet(s, p), rules.showCostMultiplier);
  }

  lemma ShowRecorded(s: State, c: State, first: Spec, turn: Spec)
    requires Inv(s) && s.status == InProgress && SameRound(s, c) && c.pendingShow.Some?
    requires first.kind == ShowRequested && turn.kind == TurnChanged
    requires first.player == Some(c.pendingShow.value.requester) && first.target == Some(c.pendingShow.value.target)
    ensures ShowKnown(Commit(s, c, [first] + [turn]))
  {
    hide Audit, ConfigFormed, LastShow;
    LastShowNew(s.history, first, [turn], s.revision + 1, s.roundStart);
  }

  // ---- answering the show

  lemma HandsAreHands(s: State, k: nat)
    requires DealtOk(s) && k < |s.players|
    ensures |s.players[k].cards| == 3 && NoDup(s.players[k].cards)
  {
    var all := Flat(Hands(s.players)) + s.stock;
    DeckSize(all);
    FullDeckIsDistinct(all);
    NoDupConcat(Flat(Hands(s.players)), s.stock);
    FlatParts(Hands(s.players), k);
  }

  lemma {:induction false} BestIdsDistinct(players: seq<Player>, results: seq<HandResult>, best: HandResult)
    requires |results| == |players| && NoDup(Ids(players))
    ensures NoDup(BestIds(players, results, best))
  {
    if players != [] {
      var k := |players| - 1;
      assert NoDup(Ids(players[..k])) by { forall a,
          b | 0 <= a < b < k ensures Ids(players[..k])[a]
              != Ids(players[..k])[b] { assert Ids(players)[a] != Ids(players)[b]; } }
      BestIdsDistinct(players[..k], results[..k], best);
      BestIdsAre(players[..k], results[..k], best);
      forall j | 0 <= j < k ensures players[j].id != players[k].id { assert Ids(players)[j] != Ids(players)[k]; }
      assert players[k].id !in BestIds(players[..k], results[..k], best);
    }
  }

  lemma AtLeastTwo(s: State)
    requires BettingOk(s)
    ensures |Actives(s.players)| >= 2
  {
  }

  // The players still in each hold a real hand.
  lemma ActiveHands(s: State)
    requires Inv(s) && s.status == InProgress
    ensures forall i :: 0 <= i < |Actives(s.players)| ==>
            |Actives(s.players)[i].cards| == 3 && NoDup(Actives(s.players)[i].cards)
  {
    hide Inv, Actives, SideShowsOk, MoneyOk, HistoryOk, ShowOk, SideShowOk, StakesOk, NoDup, BettingOk,
      DealtOk, Roster, RulesFormed;
    InRound(s);
    var active := Actives(s.players);
    forall k | 0 <= k < |active| ensures |active[k].cards| == 3 && NoDup(active[k].cards) {
      assert active[k] in active;
      var j :| 0 <= j < |s.players| && s.players[j] == active[k];
      HandsAreHands(s, j);
    }
  }

  // The winners of a show: the active players nobody beats, less a tied requester when ties go against them.
  lemma ShowWinners(s: State, requester: string)
    requires Inv(s) && s.status == InProgress
    ensures var active := Actives(s.players); var results := Graded(s.config.rules.acePolicy, active);
            && active != [] && results.Some? && |results.value| == |active|
            && (forall k :: 0 <= k < |active| ==>
                  |active[k].cards| == 3 && results.value[k] == Grade(s.config.rules.acePolicy, active[k].cards))
            && var winners := BestIds(active, results.value, Best(results.value));
               && winners != [] && Elems(winners) <= Elems(Ids(active)) && NoDup(winners)
               && (|winners| > 1 ==> Without(winners, requester) != [])
  {
    hide Inv, Actives, Grade, SideShowsOk, MoneyOk, HistoryOk, ShowOk, SideShowOk, StakesOk, DealtOk, NoDup,
      BettingOk, Roster, RulesFormed, Best,
      BestIds, Graded;
    InRound(s);
    AtLeastTwo(s);
    ActiveIds(s.config, s.players);
    ActiveHands(s);
    var active := Actives(s.players);
    GradedIs(s.config.rules.acePolicy, active);
    var results := Graded(s.config.rules.acePolicy, active).value;
    var best := Best(results);
    BestIdsAre(active, results, best);
    BestIdsDistinct(active, results, best);
    var winners := BestIds(active, results, best);
    var k :| 0 <= k < |results| && results[k] == best;
    assert active[k].id in winners;
    forall id | id in Elems(winners) ensures id in Elems(Ids(active)) {
      var j :| 0 <= j < |active| && active[j].id == id && results[j] == best;
      assert Ids(active)[j] == id;
    }
    if |winners| > 1 { TwoDiffer(winners, requester); }
  }

  lemma TwoDiffer(ids: seq<string>, id: string)
    requires |ids| > 1 && NoDup(ids)
    ensures Without(ids, id) != []
  {
    assert ids[0] != ids[1];
    var x := if ids[0] != id then ids[0] else ids[1];
    assert x in Without(ids, id);
  }

  lemma RespondKeeps(s: State, id: string, showing: bool)
    requires Inv(s)
    ensures Keeps(s, RespondShow(s, id, showing)) && (RespondShow(s, id, showing).Accepted? <==> AnswersShow(s, id))
  {
    hide Inv, Settle, Finish, SeatOf, WithPlayer;
    if s.status == InProgress && s.pendingShow.Some? && s.pendingShow.value.target == id {
      if showing {
        ShownDown(s);
      } else {
        var seat := ShowTargetSeat(s);
        RespondFold(s, seat);
      }
    }
  }

  lemma ShowTargetSeat(s: State) returns (seat: nat)
    requires Inv(s) && s.status == InProgress && s.pendingShow.Some?
    ensures seat < |s.players| && IsActive(s.players[seat]) && s.players[seat].id == s.pendingShow.value.target
    ensures SeatOf(s.players, s.players[seat].id) == Some(seat)
  {
    InRound(s);
    hide Inv, Actives, SideShowsOk, MoneyOk, HistoryOk, StakesOk, DealtOk, NoDup, CountersOk, BettingOk, SideShowOk;
    ActiveIds(s.config, s.players);
    var id := s.pendingShow.value.target;
    assert id in Elems(Ids(Actives(s.players)));
    seat :| 0 <= seat < |s.players| && IsActive(s.players[seat]) && s.players[seat].id == id;
    SeatIs(s.config, s.players, seat);
  }

  lemma RespondFold(s: State, seat: nat)
    requires Inv(s) && s.status == InProgress && s.pendingShow.Some? && seat < |s.players| && IsActive(s.players[seat])
    requires s.players[seat].id == s.pendingShow.value.target && SeatOf(s.players, s.players[seat].id) == Some(seat)
    ensures Keeps(s, RespondShow(s, s.players[seat].id, false)) && RespondShow(s, s.players[seat].id, false).Accepted?
  {
    hide Inv, SeatsKept, Actives, Settle, Keeps, Finish, Ending, SeatOf, WithPlayer;
    FoldedSeat(s, seat);
    ShowIsBetweenTwo(s);
    FoldEnding(s, FoldedAt(s, seat), seat);
    AloneKeeps(s, FoldedAt(s, seat), [Note(PlayerFolded, s.players[seat].id)]);
  }

  lemma {:induction false} SubsetOfIds(ids: seq<string>, config: Config, players: seq<Player>)
    requires Roster(config, players) && NoDup(config.playerIds) && Elems(ids) <= Elems(Ids(Actives(players)))
    ensures forall i :: 0 <= i < |ids| ==> ids[i] in config.playerIds
  {
    hide Actives, NoDup;
    ActiveIds(config, players);
    forall i | 0 <= i < |ids| ensures ids[i] in config.playerIds {
      assert ids[i] in Elems(ids);
    }
  }

  lemma ShownDown(s: State)
    requires Inv(s) && s.status == InProgress && s.pendingShow.Some?
    ensures Keeps(s, Finish(Settle(s, Some(s.pendingShow.value.requester)), []))
    ensures Finish(Settle(s, Some(s.pendingShow.value.requester)), []).Accepted?
  {
    hide Inv, Actives, SideShowsOk, MoneyOk, HistoryOk, StakesOk, DealtOk, NoDup, Keeps, Finish, CountersOk,
      ShowOk, SideShowOk, BettingOk,
      Graded, Best, BestIds, Settled, Grade, Shares, SeatKept, RulesFormed, Roster, ShownOk, Without, SeatsKept;
    var requester := s.pendingShow.value.requester;
    ShowWinners(s, requester);
    var active := Actives(s.players);
    var results := Graded(s.config.rules.acePolicy, active).value;
    var best := Best(results);
    var winners := BestIds(active, results, best);
    var chosen := if |winners| > 1 && s.config.rules.tiePolicy == RequesterLoses then
        Without(winners, requester) else winners;
    assert Settle(s, Some(requester)) == Settled(s, ShowReason, chosen, Show(active), Some(best));
    assert Elems(chosen) <= Elems(Ids(active));
    hide Settle, Elems;
    ShowCloses(s, chosen, best);
  }

  // Whoever is chosen among those still active, the show closes the table.
  lemma ShowCloses(s: State, chosen: seq<string>, best: HandResult)
    requires Inv(s) && s.status == InProgress && s.pendingShow.Some?
    requires chosen != [] && Elems(chosen) <= Elems(Ids(Actives(s.players)))
    ensures Keeps(s, Finish(Settled(s, ShowReason, chosen, Show(Actives(s.players)), Some(best)), []))
    ensures Finish(Settled(s, ShowReason, chosen, Show(Actives(s.players)), Some(best)), []).Accepted?
  {
    hide Inv, Actives, SideShowsOk, MoneyOk, HistoryOk, StakesOk, DealtOk, NoDup, Keeps, Finish, CountersOk,
      ShowOk, SideShowOk, BettingOk,
      Settled, Shares, SeatKept, RulesFormed, Roster, ShownOk, SeatsKept;
    InRound(s);
    ShowPair(s);
    SubsetOfIds(chosen, s.config, s.players);
    SettledIs(s, ShowReason, chosen, Show(Actives(s.players)), Some(best));
    var d := Settled(s, ShowReason, chosen, Show(Actives(s.players)), Some(best)).value;
    AllKept(s);
    assert ClosesTable(s, d);
    FinishKeeps(s, s, d, []);
  }

  lemma AllKept(s: State)
    requires forall k :: 0 <= k < |s.players| ==> CountersOk(s.players[k])
    ensures SeatsKept(s.players, s.players)
  {
  }

  // What a pending show says about who is left and what can be shown.
  lemma ShowPair(s: State)
    requires Inv(s) && s.status == InProgress && s.pendingShow.Some?
    ensures |Ids(Actives(s.players))| == 2 && s.pendingSideShow.None?
    ensures ShownOk(s, Show(Actives(s.players))) && Showers(Show(Actives(s.players))) == Ids(Actives(s.players))
  {
    InRound(s);
    hide Inv, Actives, SideShowsOk, MoneyOk, HistoryOk, StakesOk, DealtOk, NoDup, CountersOk, SideShowOk;
    ActiveIds(s.config, s.players);
    var r := s.pendingShow.value;
    assert |{r.requester, r.target}| == 2;
    var active := Actives(s.players);
    forall i | 0 <= i < |active| ensures CardsOf(s.players, active[i].id) == Some(active[i].cards) {
      assert active[i] in active;
      var k :| 0 <= k < |s.players| && s.players[k] == active[i];
      SeatIs(s.config, s.players, k);
    }
  }
}
