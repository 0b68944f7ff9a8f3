// From a waiting table to dealt hands, and from a finished round to the next:
// starting, shuffling, cutting and dealing. What the invariant says of a table
// without a round in progress, and that every boot paid is in the history.
module FlushPreparation {
  import opened Prelude
  import opened Cards
  import opened Dealing
  import opened FlushEvaluator
  import opened FlushModels
  import opened FlushAudit
  import opened FlushSteps
  import opened FlushInvariant
  import opened FlushBetting
  import opened FlushSettlement

  // ---- states that only wait for cards

  // Nothing dealt, nothing paid, nothing pending.
  ghost predicate Preparing(s: State) {
    && (s.status == AwaitingDeal || s.status == AwaitingCut) && s.pendingShow.None? && s.revealed == []
    && s.pot == 0 && Roster(s.config, s.players)
       && (forall k :: 0 <= k < |s.players| ==> Untouched(s.players[k]) && CountersOk(s.players[k]))
  }

  lemma PreparationInv(t: State)
    requires ConfigFormed(t.config) && Preparing(t) && PreparationOk(t) && LedgerOk(t) && HistoryOk(t)
             && 1 <= t.roundStart <= t.revision
    requires forall id :: Paid(t.history, t.roundStart, id) == 0
    requires PaymentsOk(t)
    ensures Inv(t)
  {
    hide ConfigFormed, LedgerOk, HistoryOk, PaymentsOk, Paid, Roster, IndexOf, FullDeck;
    ZeroSum(Contributions(t.players));
  }

  // ---- starting

  lemma StartKeeps(s: State)
    requires Inv(s)
    ensures Keeps(s, StartGame(s)) && (StartGame(s).Accepted? <==> s.status == Waiting)
  {
    if s.status == Waiting {
      ConfigDistinct(s.config);
      var dealer := IndexOf(s.config.playerIds, s.config.dealerId);
      hide ConfigFormed, NoDup, Audit, RulesFormed;
      var r := StartGame(s);
      var t := Commit(s, r.candidate, r.specs);
      assert s == Fresh(s.config);
      HistoryGrows(s, t, r.specs);
      assert NoMoney(r.specs);
      PrepMoney(s, t, r.specs);
      hide HistoryOk, IndexOf;
      PreparationInv(t);
    }
  }

  // Events without money leave nothing paid where nothing was paid before.
  lemma PrepMoney(s: State, t: State, specs: seq<Spec>)
    requires NoMoney(specs) && t.history == s.history + Numbered(specs, |s.history|, s.revision + 1)
             && t.roundStart <= s.revision + 1
    requires forall i :: 0 <= i < |s.history| ==> s.history[i].revision < t.roundStart
    ensures (forall id :: Paid(t.history, t.roundStart, id) == 0) && PaymentsOk(t)
  {
    forall id ensures Paid(t.history, t.roundStart, id) == 0 {
      NothingPaidYet(s.history, t.roundStart, id);
      PaidGrows(s.history, specs, s.revision + 1, t.roundStart, id);
      NoMoneyPaid(specs, id);
    }
    forall i | 0 <= i < |t.history| ensures !Pays(t.history[i], t.roundStart) {
      if i < |s.history| { assert t.history[i] == s.history[i]; }
          else { assert t.history[i].what == specs[i - |s.history|]; }
    }
  }

  // ---- the next round

  predicate WonLast(s: State, id: string) {
    s.settlement.Some? && s.settlement.value.winners != [] && id == s.settlement.value.winners[0]
  }

  // The first winner is seated and may deal the next round.
  lemma WinnerCanStart(s: State)
    requires Inv(s) && s.status == Finished
    ensures s.settlement.Some? && s.settlement.value.winners != []
    ensures ConfigFormed(Config(s.config.playerIds, s.config.rules, s.settlement.value.winners[0]))
  {
    hide NoDup, DealtOk, StakesOk, MoneyOk, ShowOk, SideShowOk, SideShowsOk, HistoryOk, LedgerOk, Actives,
      LastShow, ShownOk;
    ConfigDistinct(s.config);
    var winners := s.settlement.value.winners;
    ActiveIds(s.config, s.players);
    assert winners[0] in Elems(winners);
  }

  lemma NextRoundKeeps(s: State, id: string, roster: Option<seq<string>>)
    requires Inv(s)
    ensures Keeps(s, PrepareNextRound(s, id, roster))
    ensures PrepareNextRound(s, id, roster).Accepted? <==>
              s.status == Finished &&
              if roster.Some? then ConfigFormed(Config(roster.value, s.config.rules, id)) else WonLast(s, id)
  {
    hide Inv, ConfigFormed, NewRound, Commit;
    if s.status == Finished {
      WinnerCanStart(s);
      var r := PrepareNextRound(s, id, roster);
      if r.Accepted? {
        NewRoundKeeps(s, Config(if roster.Some? then roster.value else s.config.playerIds, s.config.rules, id));
      }
    }
  }

  lemma NewRoundKeeps(s: State, config: Config)
    requires Inv(s) && s.status == Finished && ConfigFormed(config)
    ensures config.dealerId in config.playerIds
    ensures Inv(Commit(s, NewRound(s, config, IndexOf(config.playerIds, config.dealerId)),
                       [Note(RoundStarted, config.dealerId), Note(TurnChanged, config.dealerId)]))
  {
    hide ConfigFormed, NoDup, RulesFormed, Inv, ResultOk, HistoryOk, PaymentsOk, Paid, IndexOf;
    ConfigDistinct(config);
    FinishedFacts(s);
    var specs := [Note(RoundStarted, config.dealerId), Note(TurnChanged, config.dealerId)];
    var t := Commit(s, NewRound(s, config, IndexOf(config.playerIds, config.dealerId)), specs);
    HistoryGrows(s, t, specs);
    HistoryRevisions(s);
    PrepMoney(s, t, specs);
    assert LedgerOk(t);
    PreparationInv(t);
  }

  lemma FinishedFacts(s: State)
    requires Inv(s) && s.status == Finished
    ensures HistoryOk(s) && |s.results| == s.roundNumber
            && forall i :: 0 <= i < |s.results| ==> ResultOk(s.results[i], i + 1)
  {
    hide HistoryOk, ResultOk, FinishedOk, DealtOk, StakesOk, MoneyOk, ShowOk, SideShowOk, SideShowsOk;
  }

  lemma HistoryRevisions(s: State)
    requires HistoryOk(s)
    ensures forall i :: 0 <= i < |s.history| ==> s.history[i].revision < s.revision + 1
    ensures s.history != [] && s.revision >= 1 && s.history[|s.history| - 1].revision == s.revision
  {
  }

  // ---- the deck

  lemma PreparationFacts(s: State)
    requires Inv(s) && (s.status == AwaitingDeal || s.status == AwaitingCut)
    ensures Roster(s.config, s.players) && ConfigFormed(s.config) && Preparing(s) && PreparationOk(s)
            && LedgerOk(s) && HistoryOk(s) && MoneyOk(s) && 1 <= s.roundStart <= s.revision
    ensures NoDup(s.config.playerIds) && 2 <= |s.config.playerIds| <= 10
            && s.config.dealerId in s.config.playerIds && RulesFormed(s.config.rules)
    ensures forall id :: Paid(s.history, s.roundStart, id) == 0
  {
    ConfigDistinct(s.config);
    hide ConfigFormed, NoDup, RulesFormed, LedgerOk, HistoryOk, Paid, SideShowsOk, SideShowOk, Sum;
    assert s.pot == 0 by { ZeroSum(Contributions(s.players)); }
    forall id ensures Paid(s.history, s.roundStart, id) == 0 { UnpaidId(s, id); }
  }

  // Nobody has contributed, so the history of the round holds no payment.
  lemma UnpaidId(s: State, id: string)
    requires Roster(s.config, s.players) && MoneyOk(s)
             && forall k :: 0 <= k < |s.players| ==> s.players[k].contribution == 0
    ensures Paid(s.history, s.roundStart, id) == 0
  {
    if id in s.config.playerIds {
      var k := IndexOf(s.config.playerIds, id);
      assert s.players[k].id == id;
    } else {
      StrangerUnpaid(s.history, s.roundStart, s.config.playerIds, id);
    }
  }

  lemma {:induction false} StrangerUnpaid(history: seq<Event>, start: nat, ids: seq<string>, id: string)
    requires id !in ids
    requires forall i :: 0 <= i < |history| && Pays(history[i], start) ==>
             history[i].what.player.Some? && history[i].what.player.value in ids
    ensures Paid(history, start, id) == 0
  {
    if history != [] { StrangerUnpaid(history[..|history| - 1], start, ids, id); }
  }

  lemma DealKeeps(s: State, id: string, deck: seq<Card>)
    requires Inv(s) && FullDeck(deck)
    ensures Keeps(s, DealCards(s, id, deck)) && (DealCards(s, id, deck).Accepted?
            <==> s.status == AwaitingDeal && CurrentId(s) == Some(id))
  {
    hide Inv, NextSeat, FullDeck, HistoryOk, LedgerOk, NoDup, RulesFormed, MoneyOk, Roster, ConfigFormed,
      Preparing, Untouched;
    if s.status == AwaitingDeal && CurrentId(s) == Some(id) {
      PreparationFacts(s);
      var dealer := s.currentSeat.value;
      RightOfDealer(s, dealer);
      var c := s.(stock := deck, status := AwaitingCut, currentSeat := Some(Around(dealer + 1, |s.players|)));
      assert DealCards(s, id, deck) == Accepted(c,
          [Note(DealRequested, id), Note(TurnChanged, c.players[Around(dealer + 1, |s.players|)].id)]);
      hide DealCards;
      ReadyKeeps(s, c, [Note(DealRequested, id), Note(TurnChanged, c.players[Around(dealer + 1, |s.players|)].id)]);
    }
  }

  // With everyone active the next seat is the dealer's left.
  lemma RightOfDealer(s: State, dealer: nat)
    requires Preparing(s) && |s.players| > 0 && dealer < |s.players|
    ensures NextSeat(s.players, dealer) == Some(Around(dealer + 1, |s.players|))
  {
  }

  lemma ReadyKeeps(s: State, c: State, specs: seq<Spec>)
    requires Inv(s) && s.status == AwaitingDeal
             && c == s.(stock := c.stock, status := AwaitingCut, currentSeat := c.currentSeat)
    requires FullDeck(c.stock) && s.currentSeat.Some? && |s.players| > 0
             && c.currentSeat == Some(Around(s.currentSeat.value + 1, |s.players|))
    requires specs != [] && NoMoney(specs)
    ensures Inv(Commit(s, c, specs))
  {
    hide Inv, FullDeck, HistoryOk, NoDup, RulesFormed, MoneyOk, Roster, ConfigFormed, Untouched, CountersOk,
      Paid, PaymentsOk, PreparationOk, LedgerOk,
      Preparing, NoMoney;
    PreparationFacts(s);
    var t := Commit(s, c, specs);
    HistoryGrows(s, t, specs);
    HistoryRevisions(t);
    QuietMoney(s, t, specs);
    LedgerKept(s, t);
    ReadyOk(s, t);
    PreparationInv(t);
  }

  lemma ReadyOk(s: State, t: State)
    requires Preparing(s) && PreparationOk(s) && s.status == AwaitingDeal && FullDeck(t.stock)
    requires t == s.(stock := t.stock, status := AwaitingCut, currentSeat := t.currentSeat,
             revision := s.revision + 1, history := t.history)
    requires t.currentSeat == Some(Around(s.currentSeat.value + 1, |s.players|))
    requires t.history != [] && t.history[|t.history| - 1].revision == t.revision
    ensures Preparing(t) && PreparationOk(t)
  {
    hide FullDeck, IndexOf;
  }

  lemma QuietMoney(s: State, t: State, specs: seq<Spec>)
    requires MoneyOk(s) && s.roundStart <= s.revision && t.config == s.config && t.roundStart == s.roundStart
    requires forall id :: Paid(s.history, s.roundStart, id) == 0
    requires NoMoney(specs) && t.history == s.history + Numbered(specs, |s.history|, s.revision + 1)
    ensures PaymentsOk(t) && forall id :: Paid(t.history, t.roundStart, id) == 0
  {
    forall id ensures Paid(t.history, t.roundStart, id) == 0 {
      PaidGrows(s.history, specs, s.revision + 1, s.roundStart, id);
      NoMoneyPaid(specs, id);
    }
    PaymentsGrow(s, t, specs);
  }

  // ---- dealing

  lemma {:induction false} AllActive(players: seq<Player>)
    requires forall k :: 0 <= k < |players| ==> IsActive(players[k])
    ensures |Actives(players)| == |players|
  {
    if players != [] { AllActive(players[..|players| - 1]); }
  }

  lemma ExactCeil(x: int, m: int)
    requires m >= 1
    ensures BlindFor(x * m, m) == x
  {
    CeilCovers(x * m, m);
    var b := BlindFor(x * m, m);
    assert (x - 1) * m == x * m - m && (x + 1) * m == x * m + m;
    if b < x { MulLe(b, x - 1, m); }
    if b > x { MulLe(x + 1, b, m); }
  }

  lemma {:induction false} EqualSum(values: seq<int>, x: int)
    requires forall i :: 0 <= i < |values| ==> values[i] == x
    ensures Sum(values) == x * |values|
  {
    if values == [] {
      assert x * 0 == 0;
    } else {
      EqualSum(values[..|values| - 1], x);
      assert x * |values| == x * (|values| - 1) + x;
    }
  }

  lemma {:induction false} BootPaid(config: Config, players: seq<Player>, boot: int, k: nat, id: string)
    requires Roster(config, players) && NoDup(config.playerIds) && k <= |players|
    ensures PaidBy(BootSpecs(players, boot)[..k], id) == if exists j ::
            0 <= j < k && players[j].id == id then boot else 0
  {
    var specs := BootSpecs(players, boot);
    if k > 0 {
      BootPaid(config, players, boot, k - 1, id);
      assert specs[..k][..k - 1] == specs[..k - 1];
      if players[k - 1].id == id {
        forall j | 0 <= j < k - 1 ensures players[j].id != id { DistinctIds(config, players, j, k - 1); }
      }
    }
  }

  function DealSpecs(id: string, position: Option<int>, players: seq<Player>, boot: int, first: nat): seq<Spec>
    requires first < |players|
  {
    [Note(if position.None? then CutSkipped else DeckCut, id), Spec(CardsDealt, None, 0, [], [], None, None)]
    + (if boot != 0 then BootSpecs(players, boot) else []) + [Note(TurnChanged, players[first].id)]
  }

  // Everyone pays the boot, and nobody else does.
  lemma BootsPaid(config: Config, id: string, position: Option<int>, players: seq<Player>, boot: int,
    first: nat, k: nat)
    requires Roster(config, players) && NoDup(config.playerIds) && first < |players| && k < |players|
    ensures PaidBy(DealSpecs(id, position, players, boot, first), players[k].id) == boot
  {
    hide BootSpecs, PaidBy;
    var who := players[k].id;
    var a := [Note(if position.None? then CutSkipped else DeckCut, id), Spec(CardsDealt, None, 0, [], [], None, None)];
    var b := if boot != 0 then BootSpecs(players, boot) else [];
    var c := [Note(TurnChanged, players[first].id)];
    PaidByConcat(a + b, c, who);
    PaidByConcat(a, b, who);
    NoMoneyPaid(a, who);
    NoMoneyPaid(c, who);
    if boot != 0 {
      BootPaid(config, players, boot, |players|, who);
      assert BootSpecs(players, boot)[..|players|] == BootSpecs(players, boot);
    } else {
      NoMoneyPaid(b, who);
    }
  }

  lemma DealSpecsOk(config: Config, id: string, position: Option<int>, players: seq<Player>, boot: int, first: nat)
    requires Roster(config, players) && first < |players| && boot >= 0
    ensures Payable(DealSpecs(id, position, players, boot, first), config.playerIds)
            && DealSpecs(id, position, players, boot, first) != []
  {
  }

  // The table once everyone has cards and has paid the boot.
  function DealtState(s: State, deck: seq<Card>): State
    requires s.config.dealerId in s.config.playerIds && |s.players| == |s.config.playerIds| && |s.players| * 3 <= |deck|
  {
    var n, rules := |s.players|, s.config.rules;
    var hands := DealtHands(deck, IndexOf(s.config.playerIds, s.config.dealerId) + 1, n, 3);
    s.(players := Dealt(s.players, hands, rules.bootAmount), stock := deck[n * 3..], status := InProgress,
        currentSeat := Some(FirstSeat(s)),
       currentBlindBet := rules.initialBlindBet, currentSeenBet := rules.initialBlindBet * rules.multiplier,
       pot := rules.bootAmount * n)
  }

  lemma DealtMoney(s: State, t: State, deck: seq<Card>, id: string, position: Option<int>)
    requires Inv(s) && s.status == AwaitingCut && FullDeck(deck) && |s.players| == |s.config.playerIds|
             && |s.players| * 3 <= |deck|
    requires s.config.dealerId in s.config.playerIds && FirstSeat(s) < |s.players|
    requires var c := DealtState(s, deck);
             t == Commit(s, c, DealSpecs(id, position, c.players, s.config.rules.bootAmount, FirstSeat(s)))
    ensures MoneyOk(t)
  {
    hide Inv, FullDeck, HistoryOk, LedgerOk, NoDup, ConfigFormed, Preparing, PreparationOk, DealSpecs,
      DealtState, Paid, PaidBy, FirstSeat, MoneyOk,
      RulesFormed, Roster, PaymentsOk;
    PreparationFacts(s);
    PreparationRules(s);
    DealtFrame(s, deck);
    DealtRoster(s, deck);
    var boot := s.config.rules.bootAmount;
    var specs := DealSpecs(id, position, t.players, boot, FirstSeat(s));
    DealSpecsOk(t.config, id, position, t.players, boot, FirstSeat(s));
    DealtPot(s, deck);
    PaymentsGrow(s, t, specs);
    forall k | 0 <= k < |t.players| ensures t.players[k].contribution
        == Paid(t.history, t.roundStart, t.players[k].id) {
      PaidGrows(s.history, specs, s.revision + 1, s.roundStart, t.players[k].id);
      BootsPaid(t.config, id, position, t.players, boot, FirstSeat(s), k);
    }
    MoneyFrom(t);
  }

  lemma MoneyFrom(t: State)
    requires t.pot == Sum(Contributions(t.players)) && PaymentsOk(t)
    requires forall k :: 0 <= k < |t.players| ==>
             t.players[k].contribution == Paid(t.history, t.roundStart, t.players[k].id)
    ensures MoneyOk(t)
  {
  }

  lemma PreparationRules(s: State)
    requires RulesFormed(s.config.rules) && MoneyOk(s)
    ensures s.config.rules.bootAmount >= 0 && s.config.rules.multiplier >= 1 && PaymentsOk(s)
  {
  }

  lemma DealtPot(s: State, deck: seq<Card>)
    requires s.config.dealerId in s.config.playerIds && |s.players| == |s.config.playerIds| && |s.players| * 3 <= |deck|
    ensures var c := DealtState(s, deck);
            && c.pot == Sum(Contributions(c.players)) && c.config == s.config && c.roundStart == s.roundStart
               && |c.players| == |s.players|
            && forall k :: 0 <= k < |c.players| ==> c.players[k].contribution == s.config.rules.bootAmount
  {
    hide DealtHands, FirstSeat, IndexOf;
    EqualSum(Contributions(DealtState(s, deck).players), s.config.rules.bootAmount);
  }

  lemma DealtRoster(s: State, deck: seq<Card>)
    requires Roster(s.config, s.players) && s.config.dealerId in s.config.playerIds && |s.players| * 3 <= |deck|
    ensures Roster(s.config, DealtState(s, deck).players)
  {
    hide DealtHands, FirstSeat;
  }

  // Three different cards each and the rest in the stock.
  lemma DealtCards(s: State, deck: seq<Card>)
    requires FullDeck(deck) && s.config.dealerId in s.config.playerIds && |s.players| == |s.config.playerIds|
             && |s.players| * 3 <= 52 && |s.players| * 3 <= |deck|
    ensures DealtOk(DealtState(s, deck))
  {
    hide FullDeck, FirstSeat, IndexOf;
    var c := DealtState(s, deck);
    var n := |s.players|;
    var hands := DealtHands(deck, IndexOf(s.config.playerIds, s.config.dealerId) + 1, n, 3);
    assert Hands(c.players) == hands;
    DealtDeck(deck, IndexOf(s.config.playerIds, s.config.dealerId) + 1, n, 3);
    DeckEitherWay(deck[n * 3..], Flat(hands));
  }

  lemma DealtTable(s: State, deck: seq<Card>)
    requires Inv(s) && s.status == AwaitingCut && |s.players| * 3 <= |deck|
    requires s.config.dealerId in s.config.playerIds && |s.players| == |s.config.playerIds|
    ensures var c := DealtState(s, deck);
            && StakesOk(c) && BettingOk(c) && ShowOk(c) && SideShowOk(c) && SideShowsOk(c) && LedgerOk(c)
            && forall k :: 0 <= k < |c.players| ==> CountersOk(c.players[k])
  {
    hide Inv, DealtHands, HistoryOk, NoDup, ConfigFormed, MoneyOk, Paid, ResultOk, IndexOf, Actives, LedgerOk,
      PaymentsOk, FullDeck, BlindFor;
    PreparationFacts(s);
    var c := DealtState(s, deck);
    AllActive(c.players);
    ExactCeil(s.config.rules.initialBlindBet, s.config.rules.multiplier);
    LedgerKept(s, c);
  }

  lemma DealtInv(s: State, deck: seq<Card>, id: string, position: Option<int>)
    requires Inv(s) && s.status == AwaitingCut && FullDeck(deck) && |s.players| == |s.config.playerIds|
             && |s.players| * 3 <= |deck|
    requires s.config.dealerId in s.config.playerIds && FirstSeat(s) < |s.players|
    ensures var c := DealtState(s, deck);
            Inv(Commit(s, c, DealSpecs(id, position, c.players, s.config.rules.bootAmount, FirstSeat(s))))
  {
    hide DealtState, DealSpecs, FullDeck, NoDup, Paid, PaidBy, FirstSeat, Preparing, PreparationOk, MoneyOk,
      Roster, CountersOk, DealtOk, StakesOk,
      LedgerOk, Inv, ConfigFormed, BettingOk, ShowOk, SideShowOk, SideShowsOk, RulesFormed;
    PreparationFacts(s);
    DealtFrame(s, deck);
    DealtRoster(s, deck);
    var c := DealtState(s, deck);
    var specs := DealSpecs(id, position, c.players, s.config.rules.bootAmount, FirstSeat(s));
    var t := Commit(s, c, specs);
    PreparationRules(s);
    DealSpecsOk(s.config, id, position, c.players, s.config.rules.bootAmount, FirstSeat(s));
    DealtMoney(s, t, deck, id, position);
    DealtCards(s, deck);
    DealtTable(s, deck);
    HistoryGrows(s, t, specs);
    StakesCommit(c, t);
    ShowCommit(c, t);
    SideShowsCommit(c, t);
    DealtCommit(s, c, t);
  }

  lemma DealtFrame(s: State, deck: seq<Card>)
    requires s.config.dealerId in s.config.playerIds && |s.players| == |s.config.playerIds|
             && |s.players| * 3 <= |deck| && Preparing(s)
    ensures var c := DealtState(s, deck);
            c.config == s.config && c.status == InProgress && c.roundStart == s.roundStart
                && c.pendingShow.None? && |c.players| == |s.players|
            && c.history == s.history
  {
    hide DealtHands, FirstSeat, IndexOf;
  }

  // Reading the invariant of the committed table off its parts.
  lemma DealtCommit(s: State, c: State, t: State)
    requires t == c.(revision := s.revision + 1,
             history := t.history) && c.status == InProgress && c.config == s.config && c.roundStart == s.roundStart
    requires c.pendingShow.None? && 1 <= s.roundStart <= s.revision
    requires ConfigFormed(s.config) && Roster(s.config, c.players)
             && (forall k :: 0 <= k < |c.players| ==> CountersOk(c.players[k]))
    requires MoneyOk(t) && DealtOk(c) && StakesOk(t) && BettingOk(t) && ShowOk(t) && SideShowOk(t)
             && SideShowsOk(t) && LedgerOk(c) && HistoryOk(t)
    ensures Inv(t)
  {
    hide ConfigFormed, Roster, CountersOk, MoneyOk, StakesOk, BettingOk, ShowOk, SideShowOk, SideShowsOk,
      HistoryOk, FullDeck, ResultOk;
  }

  lemma CompleteDealKeeps(s: State, id: string, position: Option<int>)
    requires Inv(s) && (position.Some? ==> 1 <= position.value < 52)
    ensures Keeps(s, CompleteDeal(s, id, position))
    ensures CompleteDeal(s, id, position).Accepted? <==> s.status == AwaitingCut && CurrentId(s) == Some(id)
  {
    hide Inv, DealtHands, FullDeck, HistoryOk, LedgerOk, NoDup, ConfigFormed, MoneyOk, CurrentId, Cut, IndexOf, Paid;
    if s.status == AwaitingCut && CurrentId(s) == Some(id) {
      PreparationFacts(s);
      DeckSize(s.stock);
      var deck := if position.Some? then Cut(s.stock, position.value) else s.stock;
      if position.Some? { CutWhole(s.stock, position.value); }
      DealtInv(s, deck, id, position);
      hide Preparing, PreparationOk, FirstSeat, RulesFormed, BootSpecs;
      assert CompleteDeal(s, id, position) ==
             Accepted(DealtState(s, deck), DealSpecs(id, position, DealtState(s, deck).players,
                 s.config.rules.bootAmount, FirstSeat(s)));
    }
  }

  lemma CutWhole(deck: seq<Card>, position: nat)
    requires FullDeck(deck) && position <= |deck|
    ensures FullDeck(Cut(deck, position)) && |Cut(deck, position)| == 52
  {
    CutKeeps(deck, position);
  }
}
