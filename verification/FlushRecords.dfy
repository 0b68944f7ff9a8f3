// What every reachable Flush table has on record.
module FlushRecords {
  import opened Prelude
  import opened Cards
  import opened Dealing
  import opened FlushEvaluator
  import opened FlushModels
  import opened FlushAudit
  import opened FlushSteps
  import opened FlushInvariant
  import opened FlushBetting
  import opened FlushSettlement
  import opened FlushShows
  import opened FlushTurns
  import opened FlushEffects

  // ---- the ledger of rounds

  // Every finished round is recorded once, under its number: somebody won it, every
  // player of it is listed once, and what some won the others lost.
  lemma RoundsBalance(s: State, i: nat)
    requires Inv(s) && i < |s.results|
    ensures |s.results| == if s.status == Finished then s.roundNumber else s.roundNumber - 1
    ensures var r := s.results[i];
            && r.number == i + 1 && r.winners != [] && Sum(Amounts(r.netChanges)) == 0
            && (forall j, k :: 0 <= j < k < |r.netChanges| ==> r.netChanges[j].id != r.netChanges[k].id)
            && forall w :: w in r.winners ==> exists k :: 0 <= k < |r.netChanges| && r.netChanges[k].id == w
  {
    hide MoneyOk, ShowOk, SideShowOk, SideShowsOk, DealtOk, StakesOk, HistoryOk, FinishedOk, BettingOk, PreparationOk,
      WaitingOk, Sum, ConfigFormed, CountersOk, Roster;
    assert ResultOk(s.results[i], i + 1);
    var r := s.results[i];
    forall j, k | 0 <= j < k < |r.netChanges| ensures r.netChanges[j].id != r.netChanges[k].id {
      assert Payees(r.netChanges)[j] != Payees(r.netChanges)[k];
    }
    forall w | w in r.winners ensures exists k :: 0 <= k < |r.netChanges| && r.netChanges[k].id == w {
      var q :| 0 <= q < |r.winners| && r.winners[q] == w;
      assert r.winners[q] in Payees(r.netChanges);
      var k :| 0 <= k < |r.netChanges| && Payees(r.netChanges)[k] == w;
    }
  }

  // ---- the settlement

  // A finished round has paid its pot to players who were still in it, and everybody
  // won or lost what they received less what they paid.
  lemma PotIsPaid(s: State)
    requires Inv(s) && s.status == Finished
    ensures s.settlement.Some? && s.results != [] && s.currentSeat.None?
    ensures var r := s.settlement.value;
            && r.winners != [] && NoDup(r.winners) && |r.payouts| == |r.winners|
            && (forall i :: 0 <= i < |r.winners| ==> r.payouts[i].id == r.winners[i] && r.payouts[i].amount >= 0)
            && Sum(Amounts(r.payouts)) == s.pot
            && (forall w :: w in r.winners ==> exists k ::
               0 <= k < |s.players| && s.players[k].id == w && IsActive(s.players[k]))
            && var net := s.results[|s.results| - 1].netChanges;
               |net| == |s.players| && forall k :: 0 <= k < |s.players| ==>
                 net[k] == Payout(s.players[k].id, PayoutTo(r.payouts, s.players[k].id) - s.players[k].contribution)
  {
    hide MoneyOk, ShowOk, SideShowOk, SideShowsOk, DealtOk, StakesOk, HistoryOk, Sum, ConfigFormed, CountersOk, Roster,
      ResultOk, LastShow, NoDup, Actives, ShownOk;
    var r := s.settlement.value;
    forall i | 0 <= i < |r.winners| ensures r.payouts[i].id == r.winners[i] && r.payouts[i].amount >= 0 {
      assert Payees(r.payouts)[i] == r.winners[i];
    }
    forall w | w in r.winners ensures exists k ::
        0 <= k < |s.players| && s.players[k].id == w && IsActive(s.players[k]) {
      assert w in Elems(r.winners);
      assert w in Ids(Actives(s.players));
      ActiveNamed(s, w);
    }
  }

  lemma ActiveNamed(s: State, id: string)
    requires Inv(s) && id in Ids(Actives(s.players))
    ensures exists k :: 0 <= k < |s.players| && s.players[k].id == id && IsActive(s.players[k])
  {
    InRoster(s);
    hide Inv, Actives, IsActive, Roster, NoDup;
    ActiveIds(s.config, s.players);
  }

  // How it ended: the last one left showed nothing; after a show the two who were
  // left are shown with the cards they hold; and a show left unanswered shows the
  // requester only.
  lemma EndingIsTrue(s: State)
    requires Inv(s) && s.status == Finished && s.settlement.Some?
    ensures var r := s.settlement.value;
            match r.reason
            case LastPlayerRemaining => |ActiveSeats(s.players)| == 1 && r.shown == [] && r.hand.None?
            case ShowFold => |ActiveSeats(s.players)| == 1 && |r.shown| == 1 && r.hand.None?
            case ShowReason =>
              |ActiveSeats(s.players)| == 2 && |r.shown| == 2 && HandShown(s, r.shown[0]) && HandShown(s, r.shown[1])
  {
    hide Inv, Actives, ActiveSeats, ShownOk, Showers, Ids, HandShown;
    ActivesCount(s.players);
    EndingRecorded(s);
    if s.settlement.value.reason == ShowReason {
      HandIsShown(s, 0);
      HandIsShown(s, 1);
    }
  }

  // The cards an active player holds.
  ghost predicate HandShown(s: State, shown: ShownHand) {
    exists k :: 0 <= k < |s.players| && IsActive(s.players[k]) && shown == ShownHand(s.players[k].id, s.players[k].cards)
  }

  lemma HandIsShown(s: State, i: nat)
    requires Inv(s) && s.settlement.Some? && i < |s.settlement.value.shown| && i < |Actives(s.players)|
    requires Showers(s.settlement.value.shown) == Ids(Actives(s.players)) && ShownOk(s, s.settlement.value.shown)
    ensures HandShown(s, s.settlement.value.shown[i])
  {
    InRoster(s);
    var shown := s.settlement.value.shown[i];
    assert Showers(s.settlement.value.shown)[i] == shown.id;
    assert CardsOf(s.players, shown.id) == Some(shown.cards);
    hide Inv, NoDup, Actives, Roster, CardsOf, IsActive, ShownOk, Ids, Showers;
    ActiveNamed(s, shown.id);
    var k :| 0 <= k < |s.players| && s.players[k].id == shown.id && IsActive(s.players[k]);
    SeatIs(s.config, s.players, k);
    CardsAt(s.players, k);
  }

  lemma EndingRecorded(s: State)
    requires Inv(s) && s.status == Finished && s.settlement.Some?
    ensures var r := s.settlement.value;
            match r.reason
            case LastPlayerRemaining => |Actives(s.players)| == 1 && r.shown == [] && r.hand.None?
            case ShowFold => |Actives(s.players)| == 1 && |r.shown| == 1 && r.hand.None?
            case ShowReason =>
              && |Actives(s.players)| == 2 && |r.shown| == 2
              && Showers(r.shown) == Ids(Actives(s.players)) && ShownOk(s, r.shown)
  {
    hide MoneyOk, ShowOk, SideShowOk, SideShowsOk, DealtOk, StakesOk, HistoryOk, LedgerOk, Actives, ShownOk, LastShow;
    var r := s.settlement.value;
    assert r.reason == ShowReason ==> |Showers(r.shown)| == |Ids(Actives(s.players))|;
  }

  lemma CardsAt(players: seq<Player>, k: nat)
    requires k < |players| && SeatOf(players, players[k].id) == Some(k)
    ensures CardsOf(players, players[k].id) == Some(players[k].cards)
  {
  }

  // ---- shows under way

  // A pending show is between the two players left, waits for the other one, and
  // shows the requester's hand and no other.
  lemma PendingShowIsTrue(s: State) returns (asker: nat)
    requires Inv(s) && s.pendingShow.Some?
    ensures s.status == InProgress && s.pendingSideShow.None?
    ensures s.currentSeat.Some? && s.currentSeat.value < |s.players|
    ensures asker < |s.players| && asker != s.currentSeat.value
            && ActiveSeats(s.players) == {asker, s.currentSeat.value}
    ensures s.pendingShow.value == ShowRequest(s.players[asker].id, s.players[s.currentSeat.value].id)
    ensures s.revealed == [ShownHand(s.players[asker].id, s.players[asker].cards)]
  {
    hide *;
    PendingShowStands(s);
    InRound(s);
    ShowIsBetweenTwo(s);
    TargetTurn(s);
    ActivesCount(s.players);
    TurnTaken(s);
    var target := s.currentSeat.value;
    asker := OtherSeat(s.players, target);
    TargetSits(s);
    RequesterOther(s, target, asker);
    SeatIs(s.config, s.players, asker);
    CardsAt(s.players, asker);
    OneRevealed(s);
  }

  lemma TargetSits(s: State)
    requires s.pendingShow.Some? && CurrentId(s) == Some(s.pendingShow.value.target)
    ensures s.currentSeat.Some? && s.currentSeat.value < |s.players|
    ensures s.players[s.currentSeat.value].id == s.pendingShow.value.target
  {
  }

  lemma OneRevealed(s: State)
    requires ShowOk(s) && s.pendingShow.Some?
    ensures |s.revealed| == 1 && s.revealed[0].id == s.pendingShow.value.requester && s.pendingSideShow.None?
    ensures CardsOf(s.players, s.revealed[0].id) == Some(s.revealed[0].cards)
  {
    hide CardsOf, Actives;
    assert Showers(s.revealed)[0] == s.revealed[0].id;
  }

  lemma PendingShowStands(s: State)
    requires Inv(s) && s.pendingShow.Some?
    ensures s.status == InProgress
  {
    hide MoneyOk, SideShowOk, SideShowsOk, DealtOk, StakesOk, HistoryOk, NoDup, Actives, LedgerOk, FinishedOk;
  }

  lemma TurnTaken(s: State)
    requires BettingOk(s)
    ensures s.currentSeat.Some? && s.currentSeat.value < |s.players| && s.currentSeat.value in ActiveSeats(s.players)
  {
  }

  // Every side-show on record was between two players with the cards they hold, one
  // won and the other folded.
  lemma SideShowsAreTrue(s: State, i: nat)
    requires Inv(s) && i < |s.sideShows|
    ensures exists a: nat, b: nat ::
              && a < |s.players| && b < |s.players| && a != b
              && var r := s.sideShows[i];
                 && r.requester == s.players[a].id && r.target == s.players[b].id
                 && r.requesterCards == s.players[a].cards && r.targetCards == s.players[b].cards
                 && ((r.winner == r.requester && r.loser == r.target && s.players[b].status == Folded)
                     || (r.winner == r.target && r.loser == r.requester && s.players[a].status == Folded))
  {
    InRoster(s);
    SideShowsRecorded(s);
    hide Inv, NoDup;
    var r := s.sideShows[i];
    assert SideShowResultOk(s, r);
    var a, b := SeatOf(s.players, r.requester).value, SeatOf(s.players, r.target).value;
    TwoNames(r.winner, r.loser, r.requester, r.target);
  }

  lemma TwoNames(w: string, l: string, a: string, b: string)
    requires {w, l} == {a, b} && a != b
    ensures (w == a && l == b) || (w == b && l == a)
  {
    assert a in {w, l} && b in {w, l} && w in {a, b};
  }

  lemma SideShowsRecorded(s: State)
    requires Inv(s)
    ensures SideShowsOk(s)
  {
  }

  // The last request to show of a round, and whom it leaves to win unanswered.
  lemma {:induction false} LastShowMeans(history: seq<Event>, start: nat) returns (i: nat)
    requires LastShow(history, start).Some?
    ensures i < |history| && history[i].what.kind == ShowRequested && history[i].revision >= start
    ensures LastShow(history, start) == Some(history[i])
    ensures forall j :: i < j < |history| ==> history[j].what.kind != ShowRequested || history[j].revision < start
  {
    var last := history[|history| - 1];
    if last.what.kind == ShowRequested && last.revision >= start {
      i := |history| - 1;
    } else {
      i := LastShowMeans(history[..|history| - 1], start);
    }
  }

  // A show that was folded on: the last request of the round shows its requester's
  // hand, and one of the two it names is the only player left.
  lemma FoldedShowIsTrue(s: State) returns (i: nat, winner: nat)
    requires Inv(s) && s.status == Finished && s.settlement.Some? && s.settlement.value.reason == ShowFold
    ensures i < |s.history| && s.history[i].what.kind == ShowRequested && s.history[i].revision >= s.roundStart
    ensures forall j :: i < j < |s.history| ==>
              s.history[j].what.kind != ShowRequested || s.history[j].revision < s.roundStart
    ensures winner < |s.players| && ActiveSeats(s.players) == {winner}
    ensures Some(s.players[winner].id) == s.history[i].what.player
            || Some(s.players[winner].id) == s.history[i].what.target
    ensures |s.settlement.value.shown| == 1 && Some(s.settlement.value.shown[0].id) == s.history[i].what.player
  {
    FoldedShow(s);
    ActivesCount(s.players);
    hide Inv, Actives, ActiveSeats, LastShow, Ids;
    i := LastShowMeans(s.history, s.roundStart);
    assert Actives(s.players)[0] in Actives(s.players);
    winner := ActivePlace(s.players, Actives(s.players)[0]);
    OneOfOne(ActiveSeats(s.players), winner);
  }

  lemma ActivePlace(players: seq<Player>, p: Player) returns (k: nat)
    requires p in Actives(players)
    ensures k < |players| && players[k] == p && k in ActiveSeats(players)
  {
    hide Actives;
    k :| 0 <= k < |players| && players[k] == p;
  }

  lemma OneOfOne(seats: set<nat>, k: nat)
    requires |seats| == 1 && k in seats
    ensures seats == {k}
  {
    SubsetFull({k}, seats);
  }

  lemma FoldedShow(s: State)
    requires Inv(s) && s.status == Finished && s.settlement.Some? && s.settlement.value.reason == ShowFold
    ensures var r := s.settlement.value; var request := LastShow(s.history, s.roundStart);
            && request.Some? && |Actives(s.players)| == 1 && |r.shown| == 1
            && Some(r.shown[0].id) == request.value.what.player
            && (Some(Actives(s.players)[0].id) == request.value.what.player
                || Some(Actives(s.players)[0].id) == request.value.what.target)
  {
    hide MoneyOk, ShowOk, SideShowOk, SideShowsOk, DealtOk, StakesOk, HistoryOk, LedgerOk, Actives, ShownOk, LastShow;
  }

  // ---- before a round

  // The audit lets a table wait for its first round only with nothing on it.
  lemma WaitingIsEmpty(s: State)
    requires Audit(s) && s.status == Waiting
    ensures s.stock == [] && s.history == [] && s.revision == 0 && s.sideShows == [] && s.revealed == []
    ensures s.currentSeat.None? && s.settlement.None? && s.pendingShow.None? && s.pendingSideShow.None?
    ensures forall k :: 0 <= k < |s.players| ==>
              && s.players[k].cards == [] && s.players[k].contribution == 0 && s.players[k].turnBets == 0
              && s.players[k].visibility == Blind && s.players[k].status == Active
  {
    hide LedgerOk, MoneyOk, SideShowsOk, Sum;
  }

  // And one that waits for its deal only with a deck to cut, once it has been
  // shuffled, and its last event of the current revision.
  lemma PreparedIsEmpty(s: State)
    requires Audit(s) && (s.status == AwaitingDeal || s.status == AwaitingCut)
    ensures s.history != [] && s.history[|s.history| - 1].revision == s.revision
    ensures s.revision == s.roundStart + if s.status == AwaitingDeal then 0 else 1
    ensures s.currentBlindBet == 0 && s.currentSeenBet == 0 && s.settlement.None? && s.sideShows == []
    ensures s.pendingShow.None? && s.pendingSideShow.None? && s.revealed == []
    ensures if s.status == AwaitingDeal then s.stock == [] else FullDeck(s.stock)
    ensures forall k :: 0 <= k < |s.players| ==>
              && s.players[k].cards == [] && s.players[k].contribution == 0 && s.players[k].turnBets == 0
              && s.players[k].visibility == Blind && s.players[k].status == Active
  {
    hide LedgerOk, MoneyOk, SideShowsOk, Sum, FullDeck, IndexOf;
  }

  // ---- rules and rosters

  // What the rules may be: no negative count or price, positive stakes, two to ten
  // players, and blind shows only where two players may show blind.
  lemma RulesMean(r: Rules)
    ensures RulesFormed(r) <==>
            && !(exists x :: x in [r.bootAmount, r.minimumBetRoundsBeforeSideShow, r.minimumBlindRoundsBeforeShow,
                                   r.showCostMultiplier] && x < 0)
            && !(exists x :: x in [r.initialBlindBet, r.multiplier, r.maximumActivePlayersForBlindShow] && x < 1)
            && !(r.minimumPlayers < 2 || r.maximumPlayers > 10 || r.minimumPlayers > r.maximumPlayers)
            && !(r.allowBlindShow && r.maximumActivePlayersForBlindShow < 2)
  {
    var counts := [r.bootAmount, r.minimumBetRoundsBeforeSideShow, r.minimumBlindRoundsBeforeShow,
        r.showCostMultiplier];
    var stakes := [r.initialBlindBet, r.multiplier, r.maximumActivePlayersForBlindShow];
    assert counts[0] in counts && counts[1] in counts && counts[2] in counts && counts[3] in counts;
    assert stakes[0] in stakes && stakes[1] in stakes && stakes[2] in stakes;
  }

  // Who may play: as many as the rules allow, each with a name of more than white
  // space and no name twice, one of them the dealer.
  lemma ConfigMeans(c: Config)
    ensures ConfigFormed(c) <==>
            && RulesFormed(c.rules) && c.dealerId in c.playerIds
            && !(|c.playerIds| < c.rules.minimumPlayers || |c.playerIds| > c.rules.maximumPlayers)
            && (forall id :: id in c.playerIds ==> exists i :: 0 <= i < |id| && !IsSpace(id[i]))
            && forall i, j :: 0 <= i < |c.playerIds| && 0 <= j < |c.playerIds| && c.playerIds[i] == c.playerIds[j] ==> i == j
  {
    hide RulesFormed, IsSpace;
    if ConfigFormed(c) {
      forall id | id in c.playerIds ensures exists i :: 0 <= i < |id| && !IsSpace(id[i]) {
        var k :| 0 <= k < |c.playerIds| && c.playerIds[k] == id;
        assert !Blank(c.playerIds[k]);
      }
    }
    if forall id :: id in c.playerIds ==> exists i :: 0 <= i < |id| && !IsSpace(id[i]) {
      forall k | 0 <= k < |c.playerIds| ensures !Blank(c.playerIds[k]) {
        assert c.playerIds[k] in c.playerIds;
      }
    }
  }

  // White space by code point: the ASCII controls and blank, next line, no-break
  // space, and the Unicode spaces and separators.
  lemma SpaceMeans(c: char)
    ensures IsSpace(c) <==>
            var i := c as int;
            || i in {9, 10, 11, 12, 13, 28, 29, 30, 31, 32, 133, 160, 5760}
            || i in {8192, 8193, 8194, 8195, 8196, 8197, 8198, 8199, 8200, 8201, 8202}
            || i in {8232, 8233, 8239, 8287, 12288}
  {
  }
}
