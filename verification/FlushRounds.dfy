// How a Flush round is opened, cut and dealt.
module FlushRounds {
  import opened Prelude
  import opened Cards
  import opened Dealing
  import opened FlushEvaluator
  import opened FlushModels
  import opened FlushAudit
  import opened FlushSteps
  import opened FlushInvariant
  import opened FlushBetting
  import opened FlushShows
  import opened FlushPreparation
  import opened FlushGame

  // The seat of the dealer.
  function Dealer(config: Config): (r: nat)
    requires config.dealerId in config.playerIds
    ensures r < |config.playerIds| && config.playerIds[r] == config.dealerId
  {
    IndexOf(config.playerIds, config.dealerId)
  }

  // Play opens with the dealer to move, and nothing else happens.
  lemma StartMeans(s: State)
    requires Inv(s)
    ensures s.config.dealerId in s.config.playerIds
    ensures var r := StartGame(s);
            && (r.Accepted? <==> s.status == Waiting)
            && (r.Accepted? ==> r.candidate == s.(status := AwaitingDeal, currentSeat := Some(Dealer(s.config))))
  {
    StartKeeps(s);
    ConfigDistinct(s.config);
    hide Inv, Keeps, IndexOf;
  }

  // A next round starts from nothing but the rules and the record: new players, no
  // cards, no stakes, one round number more, and its opener deals.
  lemma NextRoundMeans(s: State, id: string, roster: Option<seq<string>>)
    requires Inv(s) && PrepareNextRound(s, id, roster).Accepted?
    ensures var t := PrepareNextRound(s, id, roster).candidate;
            && s.status == Finished && t.status == AwaitingDeal
            && t.config == Config(if roster.Some? then roster.value else s.config.playerIds, s.config.rules, id)
            && id in t.config.playerIds && t.currentSeat == Some(Dealer(t.config))
            && |t.players| == |t.config.playerIds|
            && (forall i :: 0 <= i < |t.players| ==>
                  t.players[i] == Player.Player(t.config.playerIds[i], [], Active, Blind, 0, 0, 0))
            && t.stock == [] && t.pot == 0 && t.currentBlindBet == 0 && t.currentSeenBet == 0 && t.revealed == []
            && t.settlement.None? && t.pendingShow.None? && t.pendingSideShow.None? && t.sideShows == []
            && t.roundNumber == s.roundNumber + 1 && t.roundStart == s.revision + 1
            && t.results == s.results && t.history == s.history
    ensures roster.None? ==> WonLast(s, id)
  {
    NextRoundKeeps(s, id, roster);
    hide Inv, Keeps, IndexOf, NoDup, RulesFormed;
  }

  // The dealer shuffles; the player on the dealer's left is to cut that deck.
  lemma ShuffleMeans(s: State, id: string, deck: seq<Card>)
    requires Inv(s) && FullDeck(deck) && s.config.dealerId in s.config.playerIds
    ensures var r := DealCards(s, id, deck);
            && (r.Accepted? <==> s.status == AwaitingDeal && id == s.config.dealerId)
            && (r.Accepted? ==>
                  var t := r.candidate;
                  && t.currentSeat.Some? && t.currentSeat.value < |s.config.playerIds|
                  && Ahead(Dealer(s.config), t.currentSeat.value, |s.config.playerIds|) == 1
                  && t == s.(stock := deck, status := AwaitingCut, currentSeat := t.currentSeat))
  {
    DealKeeps(s, id, deck);
    if s.status == AwaitingDeal {
      PreparationFacts(s);
      hide Inv, Keeps, FullDeck, NextSeat, NoDup, RulesFormed, LedgerOk, HistoryOk, MoneyOk, Paid, IndexOf;
      RightOfDealer(s, Dealer(s.config));
    }
  }

  // The state that dealing this deck leads to.
  ghost predicate DealtOut(s: State, t: State, deck: seq<Card>)
    requires s.config.dealerId in s.config.playerIds
  {
    var n, dealer, rules := |s.players|, Dealer(s.config), s.config.rules;
    && n == |s.config.playerIds| && 3 * n <= |deck| && |t.players| == n
    && (forall seat :: 0 <= seat < n ==>
          var hand := t.players[seat].cards;
          && t.players[seat] == s.players[seat].(cards := hand, contribution := rules.bootAmount)
          && |hand| == 3
          && forall round :: 0 <= round < 3 ==> hand[round] == DealtCard(deck, n, round, Ahead(dealer, seat, n)))
    && t.currentSeat.Some? && t.currentSeat.value < n && Ahead(dealer, t.currentSeat.value, n) == 1
    && t == s.(players := t.players, stock := deck[n * 3..], status := InProgress, currentSeat := t.currentSeat,
               currentBlindBet := rules.initialBlindBet, currentSeenBet := rules.initialBlindBet * rules.multiplier,
               pot := rules.bootAmount * n)
  }

  // Cards go out one at a time from the dealer's left.
  function DealtCard(deck: seq<Card>, n: nat, round: nat, ahead: nat): Card
    requires 1 <= ahead <= n && round < 3 && 3 * n <= |deck|
  {
    deck[n * round + ahead - 1]
  }

  lemma DealtOutIs(s: State, deck: seq<Card>)
    requires s.config.dealerId in s.config.playerIds && |s.players| == |s.config.playerIds| && |s.players| * 3 <= |deck|
    ensures DealtOut(s, DealtState(s, deck), deck)
  {
    var n, dealer := |s.players|, Dealer(s.config);
    var t := DealtState(s, deck);
    hide IndexOf;
    forall seat, round | 0 <= seat < n && 0 <= round < 3
      ensures |t.players[seat].cards| == 3
      ensures t.players[seat].cards[round] == DealtCard(deck, n, round, Ahead(dealer, seat, n))
    {
      var k := HandIndex(dealer + 1, n, seat + 1);
      assert k == Ahead(dealer, seat, n) - 1;
      RowFits(round, 3, n);
      assert StrideAt(deck, k, n, 3, round) == deck[round * n + k];
      assert round * n == n * round;
    }
  }

  // The player on the dealer's left cuts the deck, or leaves it, and the deck is
  // dealt: three cards each, the boot from everybody, the first minimums.
  lemma CutMeans(s: State, id: string, position: Option<int>)
    requires Inv(s) && (position.Some? ==> 1 <= position.value < 52) && s.config.dealerId in s.config.playerIds
    ensures var r := CompleteDeal(s, id, position);
            && (r.Accepted? <==>
                  && s.status == AwaitingCut
                  && exists seat :: 0 <= seat < |s.config.playerIds|
                       && s.config.playerIds[seat] == id && Ahead(Dealer(s.config), seat, |s.config.playerIds|) == 1)
            && (r.Accepted? ==>
                  && |s.stock| == 52
                  && DealtOut(s, r.candidate, if position.Some? then Cut(s.stock, position.value) else s.stock))
  {
    hide Inv, Keeps, FullDeck, NoDup, RulesFormed, LedgerOk, HistoryOk, MoneyOk, Paid, IndexOf, DealtOut, DealtState,
      CompleteDeal, Cut, DealSpecs, CurrentId;
    CompleteDealKeeps(s, id, position);
    if s.status == AwaitingCut {
      LeftToCut(s, id);
      if CurrentId(s) == Some(id) {
        DeckReady(s);
        var deck := if position.Some? then Cut(s.stock, position.value) else s.stock;
        assert |deck| == 52 by { if position.Some? { CutSize(s.stock, position.value); } }
        DealIs(s, id, position, deck);
        DealtOutIs(s, deck);
      }
    }
  }

  lemma CutSize(deck: seq<Card>, position: nat)
    requires position <= |deck|
    ensures |Cut(deck, position)| == |deck|
  {
  }

  lemma LeftToCut(s: State, id: string)
    requires Inv(s) && s.status == AwaitingCut && s.config.dealerId in s.config.playerIds
    ensures CurrentId(s) == Some(id) <==>
            exists seat :: 0 <= seat < |s.config.playerIds|
              && s.config.playerIds[seat] == id && Ahead(Dealer(s.config), seat, |s.config.playerIds|) == 1
  {
    PreparationFacts(s);
    hide Inv, FullDeck, NoDup, RulesFormed, LedgerOk, HistoryOk, MoneyOk, Paid, IndexOf;
    var left := s.currentSeat.value;
    assert s.config.playerIds[left] == s.players[left].id;
    assert Ahead(Dealer(s.config), left, |s.config.playerIds|) == 1;
  }
}
