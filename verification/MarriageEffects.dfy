// What each Marriage command accepts and does, card by card.
module MarriageEffects {
  import opened Prelude
  import opened Cards
  import opened MarriageCards
  import opened MarriageModels
  import opened MarriageCompletion
  import opened MarriageSolver
  import opened MarriageFinder
  import opened MarriageState
  import opened MarriageAudit
  import opened MarriageSteps
  import opened MarriageInvariant
  import opened MarriageEngine

  // ---- whose turn it is

  // The first seat after a seat, going up and round the table, whose player has
  // not folded.
  predicate NextActive(players: seq<PlayerState>, from: nat, next: nat) {
    && from < |players| && next < |players| && !players[next].folded
    && forall x :: 0 <= x < |players| && Ahead(from, x, |players|) < Ahead(from, next, |players|) ==> players[x].folded
  }

  lemma {:induction false} NextIsActive(players: seq<PlayerState>, from: nat, offset: nat)
    requires from < |players| && 1 <= offset <= |players|
    requires exists k :: offset <= k <= |players| && !players[SeatAfter(from, k, |players|)].folded
    requires forall x :: 0 <= x < |players| && Ahead(from, x, |players|) < offset ==> players[x].folded
    ensures NextActive(players, from, NextSeat(players, from, offset))
    decreases |players| - offset
  {
    var seat := SeatAfter(from, offset, |players|);
    assert Ahead(from, seat, |players|) == offset;
    forall x | 0 <= x < |players| && Ahead(from, x, |players|) == offset ensures x == seat {}
    if players[seat].folded { NextIsActive(players, from, offset + 1); }
  }

  // May this player make a move of this phase now?
  predicate OnTurn(s: GameState, id: string, phase: TurnPhase) {
    && s.status == InProgress && s.phase == Some(phase)
    && s.currentSeat.Some? && s.currentSeat.value < |s.players|
    && s.players[s.currentSeat.value].id == id && !s.players[s.currentSeat.value].folded
    && (s.config.rules.scoring.initialTunnelaDeclaration ==>
          forall i :: 0 <= i < |s.players| && !s.players[i].folded ==> s.players[i].tunnelaDeclared)
  }

  lemma TurnMeans(s: GameState, id: string, phase: TurnPhase, finishing: bool)
    requires Inv(s)
    ensures RequireTurn(s, id, phase, finishing).Seat? <==> OnTurn(s, id, phase) && (s.mustFinish ==> finishing)
    ensures OnTurn(s, id, phase) && (s.mustFinish ==> finishing) ==>
              RequireTurn(s, id, phase, finishing) == Seat(s.currentSeat.value)
  {
    hide Conserved, SeatOk, HistoryOk, FinishedOk, ForcedOk, ActiveOk, IndicatorSeen, PlayerFormed;
    if OnTurn(s, id, phase) {
      RosterOfInv(s);
      OneSeatOf(s, s.currentSeat.value);
    }
    assert DeclarationsPending(s) <==>
           s.status == InProgress && s.config.rules.scoring.initialTunnelaDeclaration
           && !forall i :: 0 <= i < |s.players| && !s.players[i].folded ==> s.players[i].tunnelaDeclared;
  }

  // A player of the round whose move it is not is told so; everybody else's action
  // is invalid.
  lemma TurnRefused(s: GameState, id: string, phase: TurnPhase, finishing: bool)
    requires Inv(s) && RequireTurn(s, id, phase, finishing).Blocked?
    ensures RequireTurn(s, id, phase, finishing).error == InvalidTurn
            || RequireTurn(s, id, phase, finishing).error == InvalidAction
    ensures RequireTurn(s, id, phase, finishing).error == InvalidTurn <==>
            && s.status == InProgress && s.currentSeat.Some? && s.currentSeat.value < |s.players|
            && s.players[s.currentSeat.value].id != id
            && (exists i :: 0 <= i < |s.players| && s.players[i].id == id && !s.players[i].folded)
            && (s.config.rules.scoring.initialTunnelaDeclaration ==>
                  forall i :: 0 <= i < |s.players| && !s.players[i].folded ==> s.players[i].tunnelaDeclared)
  {
    hide Conserved, SeatOk, HistoryOk, FinishedOk, ForcedOk, ActiveOk, IndicatorSeen, PlayerFormed;
    RosterOfInv(s);
    forall i | 0 <= i < |s.players| ensures SeatOf(s.players, s.players[i].id) == Some(i) { OneSeatOf(s, i); }
    assert DeclarationsPending(s) <==>
           s.status == InProgress && s.config.rules.scoring.initialTunnelaDeclaration
           && !forall i :: 0 <= i < |s.players| && !s.players[i].folded ==> s.players[i].tunnelaDeclared;
  }

  lemma RosterOfInv(s: GameState)
    requires Inv(s)
    ensures RosterOk(s.config, s.players) && ConfigFormed(s.config)
    ensures s.status == InProgress ==> TurnOk(s)
  {
    hide Conserved, SeatOk, HistoryOk, FinishedOk, ForcedOk, ActiveOk, IndicatorSeen, PlayerFormed, NoDup;
  }

  lemma OneSeatOf(s: GameState, seat: nat)
    requires RosterOk(s.config, s.players) && ConfigFormed(s.config) && seat < |s.players|
    ensures SeatOf(s.players, s.players[seat].id) == Some(seat)
  {
    var found := SeatOf(s.players, s.players[seat].id).value;
    assert s.config.playerIds[found] == s.config.playerIds[seat];
  }

  // ---- the deal

  // Cards come off the end of the deck, one to each hand in seat order and then
  // round again; what is left stays in order.
  lemma {:induction false} DealtIs(deck: seq<PhysicalCard>, n: nat, r: nat, j: nat)
    requires 0 < n <= 5 && r <= HAND_SIZE && j <= n && (r == HAND_SIZE ==> j == 0) && |deck| == 159
    ensures var (hands, stock) := Dealt(deck, n, r, j);
            && stock == deck[..|stock|]
            && forall i, k :: 0 <= i < n && 0 <= k < |hands[i]| ==>
               PlaceOf(k, i, n) < 159 && hands[i][k] == deck[158 - PlaceOf(k, i, n)]
    decreases r, j
  {
    if j > 0 {
      DealtIs(deck, n, r, j - 1);
      DealtStep(deck, n, r, j);
      var (hands, stock) := Dealt(deck, n, r, j - 1);
      var (after, rest) := Dealt(deck, n, r, j);
      hide Dealt, PlaceOf;
      PlaceOfNext(n, r, j);
      forall i, k | 0 <= i < n && 0 <= k < |after[i]|
        ensures PlaceOf(k, i, n) < 159 && after[i][k] == deck[158 - PlaceOf(k, i, n)]
      {
        if i != j - 1 || k < |hands[i]| { assert after[i][k] == hands[i][k]; }
      }
    } else if r > 0 {
      DealtIs(deck, n, r - 1, n);
    }
  }

  // The how-manieth card off the deck is the k-th of the i-th hand.
  function PlaceOf(k: nat, i: nat, n: nat): nat {
    k * n + i
  }

  lemma PlaceOfNext(n: nat, r: nat, j: nat)
    requires 0 < n <= 5 && r < HAND_SIZE && 0 < j <= n
    ensures PlaceOf(r, j - 1, n) == r * n + (j - 1) < 159
  {
    assert r * n <= 20 * n;
  }

  // Starting: everybody gets 21 cards that way, the next card opens the discard
  // pile, the rest is the stock, and the configured player draws first.
  lemma StartDeals(s: GameState, shuffle: Shuffle)
    requires Inv(s) && Formed(s) && Shuffles(shuffle) && |shuffle(CreateDeck())| == 159 && Start(s, shuffle).Accepted?
    ensures var deck, t, n := shuffle(CreateDeck()), Start(s, shuffle).candidate, |s.config.playerIds|;
            && s.status == Waiting && t.status == InProgress && t.phase == Some(MustDraw) && |t.players| == n
               && 2 <= n <= 5
            && (forall i :: 0 <= i < n ==> t.players[i].id == s.config.playerIds[i] && |t.players[i].hand| == 21)
            && (forall i, k :: 0 <= i < n && 0 <= k < 21 ==>
                  PlaceOf(k, i, n) < 159 && t.players[i].hand[k] == deck[158 - PlaceOf(k, i, n)])
            && 21 * n < 159 && t.discard == [deck[158 - 21 * n]] && t.stock == deck[..158 - 21 * n]
            && t.currentSeat.Some? && t.currentSeat.value < n
               && s.config.playerIds[t.currentSeat.value] == s.config.firstPlayerId
            && t.tiplu.None? && t.winner.None?
  {
    hide Conserved, SeatOk, HistoryOk, Audit, Dealt, NoDup;
    DealtIs(shuffle(CreateDeck()), |s.config.playerIds|, HAND_SIZE, 0);
  }

  // ---- declaring

  // Open to each active player once, while the rule is on; any valid, disjoint
  // Tunnelas may be declared, also none.
  lemma DeclareMeans(s: GameState, id: string, melds: seq<Meld>)
    requires Inv(s)
    ensures Declare(s, id, melds).Accepted? <==>
            exists seat :: 0 <= seat < |s.players| && MayDeclare(s, seat, id, melds)
    ensures forall seat :: 0 <= seat < |s.players| && MayDeclare(s, seat, id, melds) && Declare(s, id, melds).Accepted? ==>
              Declare(s, id, melds).candidate ==
              s.(players := s.players[seat := s.players[seat].(tunnelaDeclared := true, initialTunnelas := melds)])
  {
    hide Conserved, SeatOk, HistoryOk, FinishedOk, ForcedOk, ActiveOk, IndicatorSeen, PlayerFormed, NoDup,
      ValidMeld, MeldIds;
    RosterOfInv(s);
    var found := SeatOf(s.players, id);
    forall seat | 0 <= seat < |s.players| && s.players[seat].id == id ensures found
        == Some(seat) { OneSeatOf(s, seat); }
    if found.Some? {
      var p := s.players[found.value];
      NoMeldsYet();
      assert melds[..0] == [];
      ErrorMeans(p, melds, 0, s.config.rules);
      assert MayDeclare(s, found.value, id, melds) ==> DeclarationsPending(s);
      assert Declare(s, id, melds).Accepted? <==> MayDeclare(s, found.value, id, melds);
      OneSeat(s, found.value, p.(tunnelaDeclared := true, initialTunnelas := melds));
    }
  }

  predicate MayDeclare(s: GameState, seat: nat, id: string, melds: seq<Meld>)
    requires seat < |s.players|
  {
    var p := s.players[seat];
    && p.id == id && s.status == InProgress && s.config.rules.scoring.initialTunnelaDeclaration
    && !p.folded && !p.tunnelaDeclared && NoDup(MeldIds(melds))
    && forall k :: 0 <= k < |melds| ==> melds[k].kind == Tunnela && ValidMeld(p, melds[k], s.config.rules, false)
  }

  lemma NoMeldsYet()
    ensures MeldIds([]) == [] && NoDup<CardId>([])
  {
  }

  lemma {:induction false} ErrorMeans(p: PlayerState, melds: seq<Meld>, k: nat, rules: Rules)
    requires k <= |melds| && NoDup(MeldIds(melds[..k]))
    requires forall j :: 0 <= j < k ==> melds[j].kind == Tunnela && ValidMeld(p, melds[j], rules, false)
    ensures TunnelaError(p, melds, k, rules).None? <==>
            && NoDup(MeldIds(melds))
            && forall j :: 0 <= j < |melds| ==> melds[j].kind == Tunnela && ValidMeld(p, melds[j], rules, false)
    decreases |melds| - k
  {
    hide ValidMeld, NoDup, MeldIds;
    if k < |melds| {
      MeldIdsNext(melds, k);
      PrefixNoDup(melds, k + 1);
      if melds[k].kind == Tunnela && ValidMeld(p, melds[k], rules, false) {
        ValidMeldDistinct(p, melds[k], rules, false);
        if Elems(MeldIds(melds[..k])) * Elems(melds[k].ids) == {} { ErrorMeans(p, melds, k + 1, rules); }
      }
    } else {
      assert melds[..k] == melds;
    }
  }

  // ---- drawing

  // A qualified Dublee player may be held back from the discard pile.
  predicate MayTakeTop(s: GameState, p: PlayerState) {
    && s.discard != []
    && (p.route == DubleeRoute && !s.config.rules.dubleePlayerCanDrawDiscard ==>
          s.config.rules.dubleePlayerCanTakeWinningDiscard && |p.shownMelds| == 7
          && var top := s.discard[|s.discard| - 1];
             top.Standard? && exists c :: c in p.hand && c !in p.committed && c.Standard? && c.face == top.face && c != top)
  }

  lemma DrawMeans(s: GameState, id: string, source: DrawSource, shuffle: Shuffle)
    requires Inv(s) && forall cards :: |shuffle(cards)| == |cards|
    ensures Draw(s, id, source, shuffle).Accepted? <==>
            && OnTurn(s, id, MustDraw) && !s.mustFinish
            && if source == Stock then s.stock != [] || |s.discard| >= 2
               else MayTakeTop(s, s.players[s.currentSeat.value])
  {
    hide Inv, WithPlayer, OnTurn, RequireTurn, Recycled;
    TurnMeans(s, id, MustDraw, false);
    OnTurnSeat(s, id, MustDraw);
    if OnTurn(s, id, MustDraw) { WinningMeans(s, s.players[s.currentSeat.value]); }
  }

  lemma OnTurnSeat(s: GameState, id: string, phase: TurnPhase)
    ensures OnTurn(s, id, phase) ==>
              && s.status == InProgress && s.phase == Some(phase) && s.currentSeat.Some?
                 && s.currentSeat.value < |s.players|
              && s.players[s.currentSeat.value].id == id && !s.players[s.currentSeat.value].folded
  {
  }

  lemma WinningMeans(s: GameState, p: PlayerState)
    ensures SourceBlock(s, p, Discard).None? <==> MayTakeTop(s, p)
  {
  }

  // The top of the stock, or the top discard; an empty stock is first refilled
  // with every discard but the top one, in some order.
  lemma DrawTakes(s: GameState, id: string, source: DrawSource, shuffle: Shuffle) returns (card: PhysicalCard)
    requires Inv(s) && Shuffles(shuffle) && (forall cards :: |shuffle(cards)| == |cards|)
    requires Draw(s, id, source, shuffle).Accepted?
    ensures s.currentSeat.Some? && s.currentSeat.value < |s.players|
    ensures var t, p := Draw(s, id, source, shuffle).candidate, s.players[s.currentSeat.value];
            && p.id == id
            && t == s.(players := s.players[s.currentSeat.value := p.(hand := p.hand + [card])], stock := t.stock,
                       discard := t.discard, phase := Some(MustDiscard), mustFinish := t.mustFinish)
            && (t.mustFinish <==> source == Discard && p.route == DubleeRoute && !s.config.rules.dubleePlayerCanDrawDiscard)
            && (source == Discard ==> s.discard == t.discard + [card] && t.stock == s.stock)
            && (source == Stock && s.stock != [] ==> s.stock == t.stock + [card] && t.discard == s.discard)
            && (source == Stock && s.stock == [] ==>
                  && |s.discard| >= 2 && t.discard == [s.discard[|s.discard| - 1]]
                  && t.stock + [card] == shuffle(s.discard[..|s.discard| - 1])
                  && multiset(t.stock + [card]) == multiset(s.discard[..|s.discard| - 1]))
  {
    hide Inv, OnTurn, RequireTurn, WithPlayer, NoDup, RosterOk, ConfigFormed;
    TurnMeans(s, id, MustDraw, false);
    OnTurnSeat(s, id, MustDraw);
    var seat := s.currentSeat.value;
    var p := s.players[seat];
    RosterOfInv(s);
    var (pile, rest) := Recycled(s, shuffle);
    card := if source == Discard then s.discard[|s.discard| - 1] else pile[|pile| - 1];
    OneSeat(s, seat, p.(hand := p.hand + [card]));
  }

  // ---- discarding

  // Only a held card outside committed melds and initial Tunnelas; it goes on
  // top, and the turn to the next player who has not folded.
  lemma DiscardMeans(s: GameState, id: string, card: CardId)
    requires Inv(s)
    ensures DiscardCard(s, id, card).Accepted? <==>
            && OnTurn(s, id, MustDiscard) && !s.mustFinish
            && var p := s.players[s.currentSeat.value];
               card in p.hand && card !in p.committed && card !in MeldIds(p.initialTunnelas)
    ensures DiscardCard(s, id, card).Accepted? ==>
              var seat, t := s.currentSeat.value, DiscardCard(s, id, card).candidate;
              var p := s.players[seat];
              && t.currentSeat.Some?
              && t == s.(players := s.players[seat := p.(hand := Without(p.hand, {card}))],
                 discard := s.discard + [card],
                         currentSeat := t.currentSeat, phase := Some(MustDraw))
              && multiset(t.players[seat].hand) + multiset{card} == multiset(p.hand)
              && NextActive(t.players, seat, t.currentSeat.value)
  {
    hide Inv, OnTurn, RequireTurn, WithPlayer, NoDup, NextActive, NextSeat, Without;
    TurnMeans(s, id, MustDiscard, false);
    OnTurnSeat(s, id, MustDiscard);
    if OnTurn(s, id, MustDiscard) && !s.mustFinish {
      var seat := s.currentSeat.value;
      var p := s.players[seat];
      RosterOfInv(s);
      SeatFormed(s, seat);
      assert !TurnBlocked(s, p) by { TurnFree(s, id); }
      OneSeat(s, seat, p.(hand := Without(p.hand, {card})));
      if card in p.hand && !Locked(p, card) {
        WithoutOne(p.hand, card);
        var players := s.players[seat := p.(hand := Without(p.hand, {card}))];
        SomeoneNext(players, seat, seat);
        NextIsActive(players, seat, 1);
      }
    }
  }

  lemma SeatFormed(s: GameState, seat: nat)
    requires Inv(s) && seat < |s.players|
    ensures NoDup(s.players[seat].hand) && PlayerFormed(s.players[seat])
  {
    hide Audit, Unaudited;
  }

  lemma TurnFree(s: GameState, id: string)
    requires OnTurn(s, id, MustDiscard) && !s.mustFinish
    ensures !TurnBlocked(s, s.players[s.currentSeat.value])
  {
  }

  // ---- qualifying and the indicator

  // Is any natural card left to turn up?
  predicate IndicatorLeft(stock: seq<PhysicalCard>, discard: seq<PhysicalCard>) {
    || (exists c :: c in stock && c.Standard?)
    || (|discard| >= 2 && exists c :: c in discard[..|discard| - 1] && c.Standard?)
  }

  // The indicator is the topmost natural card of a pile; all above it are Man.
  predicate TopNatural(pile: seq<PhysicalCard>, i: nat) {
    i < |pile| && pile[i].Standard? && forall j :: i < j < |pile| ==> pile[j].Man?
  }

  lemma {:induction false} LastIsTop(pile: seq<PhysicalCard>)
    ensures LastStandard(pile).Some? ==> TopNatural(pile, LastStandard(pile).value)
    ensures LastStandard(pile).Some? <==> exists c :: c in pile && c.Standard?
  {
    if pile != [] {
      var init := pile[..|pile| - 1];
      LastIsTop(init);
      assert pile == init + [pile[|pile| - 1]];
    }
  }

  // Taking the top natural card out of a pile and leaving the rest under others.
  predicate TakenFrom(r: Selection, pile: seq<PhysicalCard>, above: seq<PhysicalCard>) {
    && r.Selected?
    && exists i :: 0 <= i < |pile| && TopNatural(pile, i) && r.tiplu == pile[i] && r.stock == pile[..i] + pile[i + 1..] + above
  }

  // It comes from the stock when that holds a natural card.
  lemma SelectFromStock(stock: seq<PhysicalCard>, discard: seq<PhysicalCard>, shuffle: Shuffle)
    requires exists c :: c in stock && c.Standard?
    ensures var r := SelectTiplu(stock, discard, shuffle);
            TakenFrom(r, stock, []) && r.discard == discard && r.recycled == 0
  {
    hide TopNatural, LastStandard, TakenFrom;
    LastIsTop(stock);
    NothingUnder(stock);
    TakenAt(SelectTiplu(stock, discard, shuffle), stock, [], LastStandard(stock).value);
  }

  lemma NothingUnder(stock: seq<PhysicalCard>)
    ensures [] + stock == stock
  {
  }

  lemma TakenAt(r: Selection, pile: seq<PhysicalCard>, above: seq<PhysicalCard>, i: nat)
    requires r.Selected? && i < |pile| && TopNatural(pile, i) && r.tiplu == pile[i]
    requires r.stock == pile[..i] + pile[i + 1..] + above || (above == [] && r.stock == pile[..i] + pile[i + 1..])
    ensures TakenFrom(r, pile, above)
  {
    assert pile[..i] + pile[i + 1..] + [] == pile[..i] + pile[i + 1..];
  }

  // Otherwise all but the top discard are shuffled under the stock's Man cards,
  // and it comes from them, if they hold one.
  lemma SelectFromDiscards(stock: seq<PhysicalCard>, discard: seq<PhysicalCard>, shuffle: Shuffle)
    requires Shuffles(shuffle) && !exists c :: c in stock && c.Standard?
    ensures var r := SelectTiplu(stock, discard, shuffle);
            && (r.Selected? <==> |discard| >= 2 && exists c :: c in discard[..|discard| - 1] && c.Standard?)
            && (r.Selected? ==>
                  && |discard| >= 2 && r.discard == [discard[|discard| - 1]] && r.recycled == |discard| - 1
                  && multiset(shuffle(discard[..|discard| - 1])) == multiset(discard[..|discard| - 1])
                  && TakenFrom(r, shuffle(discard[..|discard| - 1]), stock))
  {
    hide TopNatural, LastStandard, Shuffles, TakenFrom;
    LastIsTop(stock);
    if |discard| >= 2 {
      var older := shuffle(discard[..|discard| - 1]);
      ShuffledSame(shuffle, discard[..|discard| - 1]);
      LastIsTop(older);
      ManOnTop(older, stock);
      var i := LastStandard(older);
      if i.Some? {
        assert (older + stock)[..i.value] + (older + stock)[i.value + 1..]
            == older[..i.value] + older[i.value + 1..] + stock;
        TakenAt(SelectTiplu(stock, discard, shuffle), older, stock, i.value);
      }
    } else {
      NothingUnder(stock);
    }
  }

  lemma SelectMeans(stock: seq<PhysicalCard>, discard: seq<PhysicalCard>, shuffle: Shuffle)
    requires Shuffles(shuffle)
    ensures SelectTiplu(stock, discard, shuffle).Selected? <==> IndicatorLeft(stock, discard)
  {
    hide SelectTiplu, Shuffles, TopNatural;
    if exists c :: c in stock && c.Standard? {
      SelectFromStock(stock, discard, shuffle);
    } else {
      SelectFromDiscards(stock, discard, shuffle);
    }
  }

  lemma ShuffledSame(shuffle: Shuffle, cards: seq<PhysicalCard>)
    requires Shuffles(shuffle)
    ensures multiset(shuffle(cards)) == multiset(cards) && |shuffle(cards)| == |cards|
    ensures forall c :: c in shuffle(cards) <==> c in cards
  {
    PermutationKeeps(shuffle(cards), cards);
    forall c ensures c in shuffle(cards) <==> c in cards {
      assert c in shuffle(cards) <==> c in Elems(shuffle(cards));
      assert c in cards <==> c in Elems(cards);
    }
  }

  // Man cards on top do not matter.
  lemma {:induction false} ManOnTop(older: seq<PhysicalCard>, stock: seq<PhysicalCard>)
    requires LastStandard(stock).None?
    ensures LastStandard(older + stock) == LastStandard(older)
  {
    if stock == [] {
      assert older + stock == older;
    } else {
      var init := stock[..|stock| - 1];
      assert (older + stock)[..|older + stock| - 1] == older + init;
      ManOnTop(older, init);
    }
  }

  // Qualifying: by a valid declaration of an unqualified player on turn, as long
  // as an indicator is there or can be turned up.
  lemma ShowMeans(s: GameState, id: string, melds: seq<Meld>, route: Route, shuffle: Shuffle)
    requires Inv(s) && Shuffles(shuffle) && route != Unqualified
    ensures Show(s, id, melds, route, shuffle).Accepted? <==>
            && OnTurn(s, id, MustDiscard) && !s.mustFinish
            && var p := s.players[s.currentSeat.value];
               && p.route == Unqualified && ValidDeclaration(p, melds, route, s.config.rules, false)
               && (s.tiplu.Some? || IndicatorLeft(s.stock, s.discard))
    ensures Show(s, id, melds, route, shuffle).Accepted? ==>
              var seat, t := s.currentSeat.value, Show(s, id, melds, route, shuffle).candidate;
              && t.tiplu.Some?
              && t == s.(players := s.players[seat := s.players[seat].(route := route, shownMelds := melds,
                                                                      committed := Elems(MeldIds(melds)), hasSeenMaal := true)],
                         tiplu := t.tiplu, stock := t.stock, discard := t.discard)
              && (s.tiplu.Some? ==> t.tiplu == s.tiplu && t.stock == s.stock && t.discard == s.discard)
              && (s.tiplu.None? ==> var r := SelectTiplu(s.stock, s.discard, shuffle);
                                    r.Selected? && t.tiplu == Some(r.tiplu) && t.stock == r.stock
                                        && t.discard == r.discard)
  {
    hide Inv, OnTurn, RequireTurn, WithPlayer, NoDup, ValidDeclaration, SelectTiplu, ShowEvents, IndicatorLeft;
    TurnMeans(s, id, MustDiscard, false);
    OnTurnSeat(s, id, MustDiscard);
    SelectMeans(s.stock, s.discard, shuffle);
    if OnTurn(s, id, MustDiscard) && !s.mustFinish {
      RosterOfInv(s);
      OneSeat(s, s.currentSeat.value, Qualified(s.players[s.currentSeat.value], route, melds));
    }
  }

  // ---- folding

  predicate LastLeft(players: seq<PlayerState>, last: nat) {
    last < |players| && !players[last].folded && forall i :: 0 <= i < |players| && i != last ==> players[i].folded
  }

  lemma OneLeft(players: seq<PlayerState>, i: nat)
    requires i < |players| && !players[i].folded
    ensures ActiveCount(players) == 1 <==> LastLeft(players, i)
    ensures ActiveCount(players) == 1 <==> exists last :: LastLeft(players, last)
  {
    hide ActiveCount;
    var after := players[i := players[i].(folded := true)];
    ActiveCountUpdate(players, i, after[i]);
    ActiveCountPositive(after);
    if LastLeft(players, i) {
      forall k | 0 <= k < |after| ensures after[k].folded {}
    } else {
      var k :| 0 <= k < |players| && k != i && !players[k].folded;
      assert !after[k].folded;
    }
  }

  // The table after a seat has folded: the last one left wins at once; if it was
  // the folder's turn it passes on; otherwise nothing else changes.
  ghost predicate FoldedTo(s: GameState, seat: nat, t: GameState)
    requires seat < |s.players|
  {
    var after := s.players[seat := s.players[seat].(folded := true)];
    if exists last :: LastLeft(after, last) then
      && t.currentSeat.Some? && LastLeft(after, t.currentSeat.value)
      && var last := t.currentSeat.value;
         t == s.(players := after[last := after[last].(finished := true)], status := Finished,
             winner := Some(after[last].id),
                 currentSeat := Some(last), wonByFold := true, mustFinish := false)
    else if s.currentSeat == Some(seat) then
      && t.currentSeat.Some? && NextActive(after, seat, t.currentSeat.value)
      && t == s.(players := after, currentSeat := t.currentSeat, phase := Some(MustDraw), mustFinish := false)
    else t == s.(players := after)
  }

  // Any active player may fold at any time of the round.
  lemma FoldMeans(s: GameState, id: string, seat: nat)
    requires Inv(s) && s.status == InProgress && seat < |s.players| && s.players[seat].id == id
    ensures Fold(s, id).Accepted? <==> !s.players[seat].folded
    ensures Fold(s, id).Accepted? ==> FoldedTo(s, seat, Fold(s, id).candidate)
  {
    hide Inv, WithPlayer, NoDup, NextSeat, NextActive, ActiveCount, FirstActive, LastLeft, ConfigFormed;
    InvGives(s);
    RosterOfInv(s);
    OneSeatOf(s, seat);
    if !s.players[seat].folded {
      var q := s.players[seat].(folded := true);
      var after := s.players[seat := q];
      OneSeat(s, seat, q);
      OneFewer(s, seat);
      ActiveCountPositive(after);
      OneLeft(after, FirstActive(after));
      OtherIds(s, seat);
      if ActiveCount(after) > 1 && s.currentSeat == Some(seat) {
        SomeoneNext(after, seat, FirstActive(after));
        NextIsActive(after, seat, 1);
      }
    }
  }

  // ---- finishing

  // The winner shows 21 cards: a selection that passes the check, less its
  // discard, or seven Dublees with an eighth pair.
  lemma FinishMeans(s: GameState, id: string, melds: Option<seq<Meld>>, discard: Option<CardId>,
    pair: Option<seq<CardId>>)
    requires Inv(s) && Formed(s) && StandardIndicator(s.tiplu) && Finish(s, id, melds, discard, pair).Accepted?
    ensures OnTurn(s, id, MustDiscard)
    ensures var seat, t := s.currentSeat.value, Finish(s, id, melds, discard, pair).candidate; var p := s.players[seat];
            if p.route == Normal then
              && t.normalFinish.Some? && ValidNormalFinish(p, s.tiplu, s.config.rules, t.normalFinish.value)
              && (melds.Some? ==> discard.Some? && t.normalFinish.value == NormalFinish(melds.value, discard.value))
              && var last := t.normalFinish.value.discard;
                 t == s.(players := s.players[seat := p.(finished := true, hand := Without(p.hand, {last}))],
                     status := Finished,
                         winner := Some(id), normalFinish := t.normalFinish, discard := s.discard + [last], mustFinish := false)
            else
              && ValidEighthPair(p, t.winningPair) && (pair.Some? ==> t.winningPair == pair.value)
              && t == s.(players := s.players[seat := p.(finished := true)], status := Finished, winner := Some(id),
                         winningPair := t.winningPair, mustFinish := false)
  {
    hide Inv, OnTurn, RequireTurn, WithPlayer, NoDup, ValidNormalFinish, ValidEighthPair, FindFinish,
      EighthPair, PlayerFormed;
    TurnMeans(s, id, MustDiscard, true);
    OnTurnSeat(s, id, MustDiscard);
    RosterOfInv(s);
    var seat := s.currentSeat.value;
    var p := s.players[seat];
    OneSeat(s, seat, p.(finished := true));
    if p.route == Normal {
      var w := FinishWitness(s, p, melds, discard).value;
      OneSeat(s, seat, p.(finished := true, hand := Without(p.hand, {w.discard})));
    }
  }
}
