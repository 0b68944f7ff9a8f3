// Settling a round: who wins, how the pot is split, and that the closing
// ledger balances.
module FlushSettlement {
  import opened Prelude
  import opened Cards
  import opened Dealing
  import opened FlushEvaluator
  import opened FlushModels
  import opened FlushAudit
  import opened FlushSteps
  import opened FlushInvariant
  import opened FlushBetting

  // ---- shares

  lemma DivMod(pot: int, k: nat)
    requires pot >= 0 && k >= 1
    ensures pot == (pot / k) * k + pot % k && 0 <= pot % k < k && pot / k >= 0
  {
    if pot / k < 0 {
      MulLe(pot / k, -1, k);
    }
  }

  // The first i shares of a split.
  lemma {:induction false} SharesSum(winners: seq<string>, pot: int, i: nat)
    requires winners != [] && i <= |winners|
    ensures Sum(Amounts(Shares(winners, pot))[..i]) ==
            (pot / |winners|) * i + if i < pot % |winners| then i else pot % |winners|
  {
    var amounts := Amounts(Shares(winners, pot));
    if i == 0 {
      assert (pot / |winners|) * 0 == 0;
    } else {
      SharesSum(winners, pot, i - 1);
      assert amounts[..i][..i - 1] == amounts[..i - 1];
      assert (pot / |winners|) * i == (pot / |winners|) * (i - 1) + pot / |winners|;
    }
  }

  // The shares add up to the pot, no two differ by more than one, and the odd
  // points go to the first winners in order.
  lemma SharesSplitPot(winners: seq<string>, pot: int)
    requires winners != [] && pot >= 0
    ensures var amounts := Amounts(Shares(winners, pot));
            && Sum(amounts) == pot && Payees(Shares(winners, pot)) == winners
            && (forall i :: 0 <= i < |amounts| ==> amounts[i] >= 0)
            && forall i, j :: 0 <= i < j < |amounts| ==> amounts[j] <= amounts[i] <= amounts[j] + 1
  {
    var amounts := Amounts(Shares(winners, pot));
    DivMod(pot, |winners|);
    SharesSum(winners, pot, |winners|);
    assert amounts[..|winners|] == amounts;
    assert Payees(Shares(winners, pot)) == winners;
  }

  // ---- winners in clockwise order

  lemma ClockwiseIs(ids: seq<string>, dealer: nat)
    requires dealer < |ids| && NoDup(ids)
    ensures NoDup(Clockwise(ids, dealer)) && Elems(Clockwise(ids, dealer)) == Elems(ids)
    ensures Clockwise(ids, dealer) == ids[dealer + 1..] + ids[..dealer + 1]
  {
    var n := |ids|;
    var c := Clockwise(ids, dealer);
    var turned := ids[dealer + 1..] + ids[..dealer + 1];
    assert c == turned;
    assert ids == ids[..dealer + 1] + ids[dealer + 1..];
    PermutationKeeps(ids, turned);
  }

  lemma {:induction false} OnlyKeeps(ids: seq<string>, keep: seq<string>)
    requires NoDup(ids)
    ensures NoDup(Only(ids, keep))
  {
    if ids != [] {
      var init, last := ids[..|ids| - 1], ids[|ids| - 1];
      OnlyKeeps(init, keep);
      assert last !in init;
      assert last !in Only(init, keep);
    }
  }

  // How many seats lie between the dealer's left and a player.
  function SeatsFromDealer(config: Config, id: string): nat
    requires config.dealerId in config.playerIds && id in config.playerIds
  {
    HandIndex(IndexOf(config.playerIds, config.dealerId) + 1, |config.playerIds|, IndexOf(config.playerIds, id) + 1)
  }

  // Players listed as one comes to them going clockwise from the dealer.
  predicate FromDealersLeft(config: Config, ids: seq<string>)
    requires config.dealerId in config.playerIds
  {
    && (forall i :: 0 <= i < |ids| ==> ids[i] in config.playerIds)
    && forall i, j :: 0 <= i < j < |ids| ==> SeatsFromDealer(config, ids[i]) < SeatsFromDealer(config, ids[j])
  }

  // Values of ids below place k, in the order they have there.
  predicate Rising(ids: seq<string>, r: seq<string>, k: nat) {
    && (forall i :: 0 <= i < |r| ==> r[i] in ids && IndexOf(ids, r[i]) < k)
    && forall i, j :: 0 <= i < j < |r| ==> IndexOf(ids, r[i]) < IndexOf(ids, r[j])
  }

  lemma RisingNext(ids: seq<string>, r: seq<string>, k: nat)
    requires NoDup(ids) && k < |ids| && Rising(ids, r, k)
    ensures Rising(ids, r, k + 1) && Rising(ids, r + [ids[k]], k + 1)
  {
    hide NoDup;
    IndexIs(ids, k);
    hide IndexOf;
  }

  lemma {:induction false} OnlyAscends(ids: seq<string>, keep: seq<string>, k: nat)
    requires NoDup(ids) && k <= |ids|
    ensures Rising(ids, Only(ids[..k], keep), k)
  {
    hide NoDup, Rising;
    if k > 0 {
      OnlyAscends(ids, keep, k - 1);
      assert ids[..k][..k - 1] == ids[..k - 1] && ids[..k][k - 1] == ids[k - 1];
      var before := Only(ids[..k - 1], keep);
      RisingNext(ids, before, k - 1);
      assert Only(ids[..k], keep) == if ids[k - 1] in keep then before + [ids[k - 1]] else before;
    } else {
      NothingRises(ids);
    }
  }

  lemma NothingRises(ids: seq<string>)
    ensures Rising(ids, [], 0)
  {
  }

  lemma OnlyFromLeft(config: Config, keep: seq<string>)
    requires NoDup(config.playerIds) && config.dealerId in config.playerIds
    ensures FromDealersLeft(config, Only(Clockwise(config.playerIds, IndexOf(config.playerIds, config.dealerId)), keep))
  {
    hide NoDup, Only, SeatsFromDealer, Clockwise;
    var ids, dealer := config.playerIds, IndexOf(config.playerIds, config.dealerId);
    var order := Clockwise(ids, dealer);
    ClockwiseIs(ids, dealer);
    OnlyAscends(order, keep, |order|);
    assert order[..|order|] == order;
    forall id | id in order ensures id in ids && SeatsFromDealer(config, id) == IndexOf(order, id) {
      PlaceInOrder(config, IndexOf(order, id));
    }
  }

  lemma PlaceInOrder(config: Config, i: nat)
    requires NoDup(config.playerIds) && config.dealerId in config.playerIds && i < |config.playerIds|
    ensures var id := Clockwise(config.playerIds, IndexOf(config.playerIds, config.dealerId))[i];
            id in config.playerIds && SeatsFromDealer(config, id) == i
  {
    hide NoDup;
    var ids, dealer := config.playerIds, IndexOf(config.playerIds, config.dealerId);
    IndexIs(ids, Around(dealer + 1 + i, |ids|));
  }

  // A settled round: the payouts are the pot, no two differ by more than one, and
  // of two winners the one met first from the dealer's left has no less.
  lemma OddPointsClockwise(s: State, requester: Option<string>)
    requires NoDup(s.config.playerIds) && s.pot >= 0 && Settle(s, requester).Some?
    ensures s.config.dealerId in s.config.playerIds && Settle(s, requester).value.settlement.Some?
    ensures var r := Settle(s, requester).value.settlement.value; var amounts := Amounts(r.payouts);
            && r.winners != [] && Payees(r.payouts) == r.winners && FromDealersLeft(s.config, r.winners)
            && Sum(amounts) == s.pot
            && forall i, j :: 0 <= i < j < |amounts| ==> amounts[j] <= amounts[i] <= amounts[j] + 1
  {
    hide NoDup, FromDealersLeft, Graded, Best, BestIds, Only, Amounts, Payees, Shares;
    var dealer := IndexOf(s.config.playerIds, s.config.dealerId);
    var r := Settle(s, requester).value.settlement.value;
    SharesSplitPot(r.winners, s.pot);
    forall keep: seq<string> ensures FromDealersLeft(s.config, Only(Clockwise(s.config.playerIds, dealer), keep)) {
      OnlyFromLeft(s.config, keep);
    }
  }

  // What a settlement records, whoever was chosen.
  lemma SettledIs(s: State, reason: Reason, chosen: seq<string>, shown: seq<ShownHand>, hand: Option<HandResult>)
    requires NoDup(s.config.playerIds) && s.config.dealerId in s.config.playerIds
    requires chosen != [] && forall i :: 0 <= i < |chosen| ==> chosen[i] in s.config.playerIds
    ensures var d := Settled(s, reason, chosen, shown, hand);
            && d.Some? && d.value.settlement.Some?
            && var r := d.value.settlement.value;
               && d.value == s.(pendingShow := None, revealed := shown, status := Finished,
                  currentSeat := None, settlement := Some(r))
               && r == Settlement(reason, r.winners, Shares(r.winners, s.pot), shown, hand)
               && r.winners != [] && NoDup(r.winners) && Elems(r.winners) == Elems(chosen)
               && FromDealersLeft(s.config, r.winners)
  {
    hide Shares, NoDup, FromDealersLeft;
    var dealer := IndexOf(s.config.playerIds, s.config.dealerId);
    OnlyFromLeft(s.config, chosen);
    var order := Clockwise(s.config.playerIds, dealer);
    ClockwiseIs(s.config.playerIds, dealer);
    OnlyKeeps(order, chosen);
    var winners := Only(order, chosen);
    forall id | id in Elems(chosen) ensures id in winners {
      assert id in Elems(s.config.playerIds);
      assert id in Elems(order);
    }
    assert chosen[0] in Elems(chosen);
    assert Elems(winners) == Elems(chosen);
  }

  // ---- the best hands

  lemma {:induction false} GradedIs(policy: AcePolicy, players: seq<Player>)
    requires forall k :: 0 <= k < |players| ==> |players[k].cards| == 3 && NoDup(players[k].cards)
    ensures Graded(policy, players).Some?
    ensures forall k :: 0 <= k < |players| ==> Graded(policy, players).value[k] == Grade(policy, players[k].cards)
  {
    hide Grade, NoDup;
    if players != [] { GradedIs(policy, players[..|players| - 1]); }
  }

  lemma {:induction false} BestIdsAre(players: seq<Player>, results: seq<HandResult>, best: HandResult)
    requires |results| == |players|
    ensures forall id :: id in BestIds(players, results, best) <==>
              exists k :: 0 <= k < |players| && players[k].id == id && results[k] == best
  {
    if players != [] {
      var k := |players| - 1;
      BestIdsAre(players[..k], results[..k], best);
      forall id ensures id in BestIds(players, results, best) <==>
                        exists j :: 0 <= j < |players| && players[j].id == id && results[j] == best {
        if id in BestIds(players[..k], results[..k], best) {
          var j :| 0 <= j < k && players[..k][j].id == id && results[..k][j] == best;
          assert players[j].id == id && results[j] == best;
        }
        if j :| 0 <= j < |players| && players[j].id == id && results[j] == best {
          if j < k { assert players[..k][j].id == id && results[..k][j] == best; }
        }
      }
    }
  }

  // ---- the closing ledger balances

  lemma {:induction false} PayoutToIs(payouts: seq<Payout>, i: nat)
    requires i < |payouts| && NoDup(Payees(payouts))
    ensures PayoutTo(payouts, payouts[i].id) == payouts[i].amount
  {
    var k := |payouts| - 1;
    if i < k {
      assert Payees(payouts)[i] != Payees(payouts)[k];
      assert NoDup(Payees(payouts[..k])) by { forall a,
          b | 0 <= a < b < k ensures Payees(payouts[..k])[a]
              != Payees(payouts[..k])[b] { assert Payees(payouts)[a] != Payees(payouts)[b]; } }
      PayoutToIs(payouts[..k], i);
    }
  }

  lemma {:induction false} PayoutToNone(payouts: seq<Payout>, id: string)
    requires id !in Payees(payouts)
    ensures PayoutTo(payouts, id) == 0
  {
    if payouts != [] {
      var k := |payouts| - 1;
      assert Payees(payouts)[k] != id;
      forall i | 0 <= i < k ensures Payees(payouts[..k])[i] != id { assert Payees(payouts)[i] != id; }
      PayoutToNone(payouts[..k], id);
    }
  }

  function Received(ids: seq<string>, payouts: seq<Payout>): (r: seq<int>)
    ensures |r| == |ids| && forall i :: 0 <= i < |r| ==> r[i] == PayoutTo(payouts, ids[i])
  {
    seq(|ids|, i requires 0 <= i < |ids| => PayoutTo(payouts, ids[i]))
  }

  lemma {:induction false} ZeroSum(zeros: seq<int>)
    requires forall i :: 0 <= i < |zeros| ==> zeros[i] == 0
    ensures Sum(zeros) == 0
  {
    if zeros != [] { ZeroSum(zeros[..|zeros| - 1]); }
  }

  // Everything paid out is received by some seat.
  lemma {:induction false} ReceivedTotal(ids: seq<string>, payouts: seq<Payout>)
    requires NoDup(ids) && NoDup(Payees(payouts)) && forall i :: 0 <= i < |payouts| ==> payouts[i].id in ids
    ensures Sum(Received(ids, payouts)) == Sum(Amounts(payouts))
  {
    if payouts == [] {
      ZeroSum(Received(ids, payouts));
    } else {
      var k := |payouts| - 1;
      var init, last := payouts[..k], payouts[k];
      assert NoDup(Payees(init)) by { forall a,
          b | 0 <= a < b < k ensures Payees(init)[a]
              != Payees(init)[b] { assert Payees(payouts)[a] != Payees(payouts)[b]; } }
      ReceivedTotal(ids, init);
      assert last.id !in Payees(init) by { forall i | 0 <= i < k ensures Payees(init)[i]
          != last.id { assert Payees(payouts)[i] != Payees(payouts)[k]; } }
      PayoutToNone(init, last.id);
      var seat := IndexOf(ids, last.id);
      assert Received(ids, payouts) == Received(ids, init)[seat := last.amount];
      SumUpdate(Received(ids, init), seat, last.amount);
      assert Amounts(payouts)[..k] == Amounts(init);
    }
  }

  lemma {:induction false} SumMinus(a: seq<int>, b: seq<int>, c: seq<int>)
    requires |a| == |b| == |c| && forall i :: 0 <= i < |a| ==> c[i] == a[i] - b[i]
    ensures Sum(c) == Sum(a) - Sum(b)
  {
    if a != [] { SumMinus(a[..|a| - 1], b[..|b| - 1], c[..|c| - 1]); }
  }

  // Winnings minus contributions cancel over the table.
  lemma NetIsZero(config: Config, players: seq<Player>, payouts: seq<Payout>)
    requires Roster(config, players) && NoDup(config.playerIds) && NoDup(Payees(payouts))
    requires forall i :: 0 <= i < |payouts| ==> payouts[i].id in config.playerIds
    requires Sum(Amounts(payouts)) == Sum(Contributions(players))
    ensures Payees(NetChanges(players, payouts)) == config.playerIds
    ensures Sum(Amounts(NetChanges(players, payouts))) == 0
  {
    assert Payees(NetChanges(players, payouts)) == config.playerIds;
    ReceivedTotal(config.playerIds, payouts);
    SumMinus(Received(config.playerIds, payouts), Contributions(players), Amounts(NetChanges(players, payouts)));
  }

  // ---- from a last in-round candidate to a finished round

  // The candidate settle works on: the pot and the pending show as before, at
  // most one more player folded.
  ghost predicate Ending(s: State, c: State) {
    && SameRound(s, c) && SeatsKept(s.players, c.players) && c.pot == s.pot && c.pendingShow == s.pendingShow
       && c.revealed == s.revealed
    && c.sideShows == s.sideShows && c.pendingSideShow.None?
    && c.currentSeenBet == s.currentSeenBet && c.currentBlindBet == s.currentBlindBet
    && forall k :: 0 <= k < |s.players| ==> c.players[k].contribution == s.players[k].contribution
  }

  // The settlement fits the table it closes, apart from the reason given for it.
  ghost predicate ClosesTable(c: State, d: State) {
    && d.settlement.Some?
    && d == c.(pendingShow := None, revealed := d.revealed, status := Finished, currentSeat := None,
       settlement := d.settlement)
    && var r := d.settlement.value;
       && r.winners != [] && NoDup(r.winners) && r.payouts == Shares(r.winners, c.pot) && r.shown == d.revealed
       && Elems(r.winners) <= Elems(Ids(Actives(c.players)))
       && ShownOk(c, d.revealed)
  }

  ghost predicate ReasonFits(s: State, c: State, r: Settlement) {
    var active := Ids(Actives(c.players));
    match r.reason
    case LastPlayerRemaining => |active| == 1 && r.shown == [] && r.hand.None?
    case ShowFold =>
      && s.pendingShow.Some? && |active| == 1 && (active[0] == s.pendingShow.value.requester
         || active[0] == s.pendingShow.value.target)
      && Showers(r.shown) == [s.pendingShow.value.requester] && r.hand.None?
    case ShowReason => |active| == 2 && Showers(r.shown) == active
  }

  lemma FinishKeeps(s: State, c: State, d: State, specs: seq<Spec>)
    requires Inv(s) && s.status == InProgress && Ending(s, c) && ClosesTable(c, d)
             && ReasonFits(s, c, d.settlement.value) && NoMoney(specs)
    ensures Keeps(s, Finish(Some(d), specs)) && Finish(Some(d), specs).Accepted?
  {
    hide Inv, SeatKept, SeatsKept, HistoryOk, MoneyOk, ShowOk, SideShowOk, SideShowsOk, BettingOk, StakesOk,
      DealtOk, NoDup, Roster,
      CountersOk, Paid, Actives, LastShow, Sum, Keeps, ReasonFits, LedgerOk, FinishedOk, ShownOk, Shares, NetChanges, RulesFormed;
    InRound(s);
    var r := d.settlement.value;
    var f := Finish(Some(d), specs);
    var t := Commit(s, f.candidate, f.specs);
    FinishMoney(s, c, t, f.specs);
    RosterKept(s, t);
    HistoryGrows(s, t, f.specs);
    DealtKept(s, t);
    StakesCommit(s, t);
    SideShowsKept(s, t);
    assert t.pot == Sum(Contributions(t.players)) by { MoneyPot(t); }
    assert LedgerOk(s) by { LedgerOf(s); }
    FinishLedger(s, t);
    WinnersPaid(t, r);
    FinishShown(s, c, d, t, f.specs);
    FinishInv(s, t);
    assert f.Accepted?;
    KeepsIs(s, f);
  }

  lemma KeepsIs(s: State, r: Outcome)
    requires r.Accepted? && Inv(Commit(s, r.candidate, r.specs))
    ensures Keeps(s, r)
  {
  }

  lemma MoneyPot(s: State)
    requires MoneyOk(s)
    ensures s.pot == Sum(Contributions(s.players))
  {
  }

  lemma LedgerOf(s: State)
    requires Inv(s)
    ensures LedgerOk(s)
  {
  }

  lemma FinishInv(s: State, t: State)
    requires Inv(s) && s.status == InProgress && t.config == s.config && t.roundStart == s.roundStart
             && t.revision == s.revision + 1
    requires t.status == Finished && t.pendingShow.None? && t.pendingSideShow.None?
    requires Roster(t.config, t.players) && forall k :: 0 <= k < |t.players| ==> CountersOk(t.players[k])
    requires HistoryOk(t) && MoneyOk(t) && LedgerOk(t) && DealtOk(t) && StakesOk(t) && SideShowsOk(t)
             && FinishedOk(t) && ShownOk(t, t.revealed)
    ensures Inv(t)
  {
    hide HistoryOk, MoneyOk, LedgerOk, DealtOk, StakesOk, SideShowsOk, FinishedOk, ShownOk, CountersOk,
      ConfigFormed, Roster;
  }

  lemma FinishMoney(s: State, c: State, t: State, specs: seq<Spec>)
    requires Inv(s) && s.status == InProgress && Ending(s, c) && NoMoney(specs) && |s.players| > 0
    requires t.players == c.players && t.pot == c.pot && t.config == s.config && t.roundStart == s.roundStart
    requires t.history == s.history + Numbered(specs, |s.history|, s.revision + 1)
    ensures MoneyOk(t)
  {
    InRound(s);
    hide Inv, HistoryOk, ShowOk, SideShowOk, SideShowsOk, BettingOk, StakesOk, DealtOk, NoDup, CountersOk,
      Paid, Sum, SeatKept;
    Paid0(s, c, specs);
    forall k | 0 <= k < |s.players| ensures t.players[k].id == s.players[k].id { SameIds(s.players, c.players, k); }
    MoneyGrows(s, t, specs, 0, 0);
  }

  lemma SameIds(a: seq<Player>, b: seq<Player>, k: nat)
    requires SeatsKept(a, b) && k < |a|
    ensures b[k].id == a[k].id
  {
    assert SeatKept(a[k], b[k]);
  }

  // The winners of a settlement are paid the whole pot and sit at the table.
  lemma WinnersPaid(t: State, r: Settlement)
    requires Roster(t.config, t.players) && NoDup(t.config.playerIds) && t.pot == Sum(Contributions(t.players))
    requires forall k :: 0 <= k < |t.players| ==> CountersOk(t.players[k])
    requires r.winners != [] && NoDup(r.winners) && r.payouts == Shares(r.winners, t.pot)
             && Elems(r.winners) <= Elems(Ids(Actives(t.players)))
    ensures Payees(r.payouts) == r.winners && Sum(Amounts(r.payouts)) == t.pot
    ensures forall i :: 0 <= i < |r.payouts| ==> r.payouts[i].amount >= 0 && r.payouts[i].id in t.config.playerIds
  {
    hide Actives, Sum, NoDup;
    SumNatural(Contributions(t.players));
    SharesSplitPot(r.winners, t.pot);
    ActiveIds(t.config, t.players);
    forall i | 0 <= i < |r.payouts| ensures r.payouts[i].id in t.config.playerIds {
      assert r.payouts[i].id == Payees(r.payouts)[i];
      assert r.winners[i] in Elems(r.winners);
    }
  }

  // The new entry of the ledger: its winners sit at the table, its sum is zero.
  lemma NewResult(t: State, r: Settlement, number: nat)
    requires Roster(t.config, t.players) && NoDup(t.config.playerIds) && t.pot == Sum(Contributions(t.players))
    requires forall k :: 0 <= k < |t.players| ==> CountersOk(t.players[k])
    requires r.winners != [] && NoDup(r.winners) && r.payouts == Shares(r.winners, t.pot)
             && Elems(r.winners) <= Elems(Ids(Actives(t.players)))
    ensures ResultOk(RoundResult(number, r.winners, NetChanges(t.players, r.payouts)), number)
  {
    hide Actives, Sum, NoDup, Roster, Shares;
    WinnersPaid(t, r);
    NetIsZero(t.config, t.players, r.payouts);
    forall i | 0 <= i < |r.winners| ensures r.winners[i] in Payees(NetChanges(t.players, r.payouts)) {
      assert r.winners[i] == Payees(r.payouts)[i];
    }
  }

  lemma FinishLedger(s: State, t: State)
    requires LedgerOk(s) && s.status == InProgress && NoDup(t.config.playerIds)
    requires t.pot == Sum(Contributions(t.players)) && Roster(t.config, t.players)
    requires forall k :: 0 <= k < |t.players| ==> CountersOk(t.players[k])
    requires t.settlement.Some? && t.status == Finished && t.roundNumber == s.roundNumber
    requires var r := t.settlement.value;
             && r.winners != [] && NoDup(r.winners) && r.payouts == Shares(r.winners, t.pot)
                && Elems(r.winners) <= Elems(Ids(Actives(t.players)))
             && t.results == s.results + [RoundResult(s.roundNumber, r.winners, NetChanges(t.players, r.payouts))]
    ensures LedgerOk(t)
  {
    NewResult(t, t.settlement.value, s.roundNumber);
    hide ResultOk, Actives, Sum, NoDup, Roster, Shares, CountersOk;
    assert forall i :: 0 <= i < |s.results| ==> t.results[i] == s.results[i];
  }

  lemma ShownSame(c: State, t: State, shown: seq<ShownHand>)
    requires ShownOk(c, shown) && t.players == c.players
    ensures ShownOk(t, shown)
  {
  }

  lemma FinishShown(s: State, c: State, d: State, t: State, specs: seq<Spec>)
    requires Inv(s) && s.status == InProgress && Ending(s, c) && ClosesTable(c, d)
             && ReasonFits(s, c, d.settlement.value)
    requires NoMoney(specs) && t.history == s.history + Numbered(specs, |s.history|, s.revision + 1)
             && t.roundStart == s.roundStart
    requires t.players == c.players && t.pot == c.pot && t.settlement == d.settlement && t.currentSeat.None?
             && t.revealed == d.revealed
    requires var r := d.settlement.value;
             Payees(r.payouts) == r.winners && Sum(Amounts(r.payouts)) == t.pot
                 && forall i :: 0 <= i < |r.payouts| ==> r.payouts[i].amount >= 0
    ensures FinishedOk(t) && ShownOk(t, t.revealed)
  {
    hide SeatKept, SeatsKept, Actives, Sum, Shares, NoDup, LastShow, Elems, Audit, ConfigFormed, HistoryOk;
    LastShowGrows(s.history, specs, s.revision + 1, s.roundStart);
    ShownSame(c, t, t.revealed);
    hide ShownOk;
    var r := d.settlement.value;
    if r.reason == ShowFold {
      assert Showers(r.shown)[0] == r.shown[0].id;
    }
  }
}
