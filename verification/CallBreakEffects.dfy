// What each accepted Call Break command changes in the match.
module CallBreakEffects {
  import opened Prelude
  import opened Cards
  import opened Dealing
  import opened CallBreakRules
  import opened CallBreakDeals
  import opened CallBreakMatch
  import opened CallBreakInvariant
  import opened CallBreakPlay
  import opened CallBreakRuns
  import opened CallBreakProgress
  import opened CallBreakMeaning

  // ---- preparing a deal

  // The next deal goes to the dealer's left, starting from the initial dealer; a
  // claimed redeal is the same deal again, one attempt later, and keeps the hands
  // given back.
  lemma PrepareMeans(s: Match)
    requires Inv(s) && ConfigFormed(s.config) && s.initialDealer > 0
    ensures var r := Step(s, FromController(PrepareDeal));
            && (r.Accepted? <==> s.phase == AwaitingDeal || s.phase == DealComplete || s.phase == AwaitingRedeal)
            && (r.Accepted? ==>
                  && s.currentDeal.Some? == (s.phase == AwaitingRedeal) && r.next.preparation.Some?
                  && var p := r.next.preparation.value;
                     && p.deck == [] && p.cut.None?
                     && r.next == s.(phase := AwaitingShuffle, currentDeal := None, preparation := Some(p),
                          abandoned := r.next.abandoned, revision := s.revision + 1)
                     && if s.currentDeal.None? then
                          && r.next.abandoned == s.abandoned && p.attempt == 1 && p.number == |s.completed| + 1
                          && p.dealer == Advance(s.initialDealer, s.config.count, |s.completed|)
                        else
                          var prior := s.currentDeal.value;
                          && r.next.abandoned == s.abandoned + [prior] && p.attempt == prior.attempt + 1
                          && p.number == prior.number && p.dealer == prior.dealer)
  {
    hide ArchiveOk, Settled, DealAudit, TricksFormed, AbandonedOk, Advance;
  }

  // What is known while a deal is prepared.
  lemma PreparationFacts(s: Match)
    requires Inv(s) && Preparing(s.phase)
    ensures ConfigFormed(s.config) && s.initialDealer > 0 && s.preparation.Some?
    ensures 1 <= s.preparation.value.dealer <= s.config.count
    ensures s.phase == AwaitingCut || s.phase == AwaitingDistribution ==>
              FullDeck(s.preparation.value.deck) && |s.preparation.value.deck| == 52
  {
    hide ArchiveOk, Settled, DealAudit, TricksFormed, AbandonedOk, CurrentOk, Around, Elems;
  }

  // The dealer asks for the shuffle.
  lemma ShuffleMeans(s: Match, id: nat)
    requires Inv(s) && ConfigFormed(s.config)
    ensures var r := ApplyPlayer(s, id, ShuffleDeck);
            && (r.Accepted? <==> s.phase == AwaitingShuffle && s.preparation.Some? && id == s.preparation.value.dealer)
            && (r.Accepted? ==> r.next == s.(phase := Shuffling, revision := s.revision + 1))
  {
    hide Inv;
    if s.phase == AwaitingShuffle { PreparationFacts(s); }
  }

  // The controller hands in a full deck, and this deck is kept.
  lemma DeckMeans(s: Match, deck: seq<Card>)
    requires Inv(s) && ConfigFormed(s.config) && s.initialDealer > 0
    ensures var r := ApplyControl(s, CompleteShuffle(deck));
            && (r.Accepted? <==> s.phase == Shuffling && FullDeck(deck))
            && (r.Accepted? ==>
                  && s.preparation.Some?
                  && r.next == s.(phase := AwaitingCut, preparation := Some(s.preparation.value.(deck := deck)),
                       revision := s.revision + 1))
  {
    hide Inv, FullDeck;
    if s.phase == Shuffling { PreparationFacts(s); }
  }

  // The player on the dealer's left, and nobody else, cuts the deck or leaves it.
  lemma CutterMeans(s: Match, id: nat, action: Action)
    requires Inv(s) && ConfigFormed(s.config) && (action.CutDeck? || action.SkipCut?)
    ensures var r := ApplyPlayer(s, id, action);
            && (r.Accepted? <==>
                  && s.phase == AwaitingCut && s.preparation.Some?
                  && id == Left(s.preparation.value.dealer, s.config.count)
                  && (action.CutDeck? ==> 1 <= action.position <= 51))
            && (r.Accepted? ==>
                  && |s.preparation.value.deck| == 52
                  && var p := s.preparation.value;
                     var after := if action.CutDeck? then p.(deck := Cut(p.deck, action.position),
                                                            cut := Some(action.position))
                                  else p.(cut := None);
                     r.next == s.(phase := AwaitingDistribution, preparation := Some(after),
                         revision := s.revision + 1))
  {
    hide Inv, Cut, Advance, FullDeck, NewDeal, DealAudit;
    if s.phase == AwaitingCut {
      PreparationFacts(s);
      LeftSteps(s.preparation.value.dealer, s.config.count);
    }
  }

  // ---- dealing

  // A new deal waits for the review of the hands when a redeal can be claimed, and
  // for bids otherwise.
  ghost predicate Dealt(s: Match, t: Match, deck: seq<Card>, number: nat, attempt: nat, dealer: nat, given: seq<Deal>)
    requires ConfigFormed(s.config)
  {
    && 1 <= dealer <= s.config.count && s.config.count * TricksPerDeal(s.config) <= |deck|
    && t == s.(phase := if s.config.policy.weakHandEnabled || s.config.policy.noSpadesEnabled then HandReview
                        else Bidding,
               currentDeal := Some(NewDeal(deck, s.config, number, attempt, dealer)), preparation := None,
               abandoned := s.abandoned + given, revision := s.revision + 1)
  }

  lemma DistributeMeans(s: Match, deck: seq<Card>, number: nat, attempt: nat, dealer: nat, given: seq<Deal>)
    requires ConfigFormed(s.config) && FullDeck(deck) && 1 <= number <= 5 && attempt >= 1
             && 1 <= dealer <= s.config.count
    ensures var r := Distribute(s, deck, number, attempt, dealer, given);
            r.Accepted? && Dealt(s, r.next, deck, number, attempt, dealer, given)
  {
    hide NewDeal, FullDeck, DealAudit, Distribute;
    DistributeShape(s, deck, number, attempt, dealer, given);
  }

  // A new deal has its number, attempt and dealer, and nobody has done anything yet.
  lemma NewDealMeans(deck: seq<Card>, config: Config, number: nat, attempt: nat, dealer: nat, q: nat)
    requires ConfigFormed(config) && FullDeck(deck) && 1 <= dealer <= config.count && q < config.count
    ensures config.count * TricksPerDeal(config) <= |deck|
    ensures var deal := NewDeal(deck, config, number, attempt, dealer);
            && deal == Deal(number, attempt, dealer, deal.players, deal.undealt, None, [], [])
            && |deal.players| == config.count && deal.players[q].id == q + 1 && deal.players[q].bid.None?
  {
    hide FullDeck, Stride, HandIndex;
    DeckSize(deck);
  }

  // The deck that was handed in and cut is the deck that is dealt.
  lemma DistributionMeans(s: Match, id: nat)
    requires Inv(s) && ConfigFormed(s.config)
    ensures var r := ApplyPlayer(s, id, StartDistribution);
            && (r.Accepted? <==> s.phase == AwaitingDistribution && s.preparation.Some?
                                 && id == s.preparation.value.dealer)
            && (r.Accepted? ==>
                  var p := s.preparation.value;
                  Dealt(s, r.next, p.deck, p.number, p.attempt, p.dealer, []))
  {
    hide Inv, FullDeck, Distribute, Dealt, Advance;
    if s.phase == AwaitingDistribution {
      PreparationFacts(s);
      PreparationNumbers(s);
      var p := s.preparation.value;
      DistributeMeans(s, p.deck, p.number, p.attempt, p.dealer, []);
    }
  }

  lemma PreparationNumbers(s: Match)
    requires Inv(s) && Preparing(s.phase) && s.preparation.Some?
    ensures 1 <= s.preparation.value.number <= 5 && s.preparation.value.attempt >= 1
  {
    hide ArchiveOk, Settled, DealAudit, TricksFormed, AbandonedOk, CurrentOk, Around, FullDeck;
  }

  // A deck handed in without preparation is dealt by the same dealers.
  lemma StartMeans(s: Match, deck: seq<Card>)
    requires Inv(s) && ConfigFormed(s.config) && s.initialDealer > 0
    ensures var r := ApplyControl(s, StartDeal(deck));
            && (r.Accepted? <==> (s.phase == AwaitingDeal || s.phase == DealComplete) && FullDeck(deck))
            && (r.Accepted? ==> Dealt(s, r.next, deck, |s.completed| + 1, 1,
                  Advance(s.initialDealer, s.config.count, |s.completed|), []))
  {
    hide Inv, FullDeck, Distribute, Dealt, Advance;
    if (s.phase == AwaitingDeal || s.phase == DealComplete) && FullDeck(deck) {
      BoundaryFacts(s);
      DistributeMeans(s, deck, |s.completed| + 1, 1, NextDealer(s, |s.completed| + 1), []);
    }
  }

  lemma RedealDealt(s: Match, deck: seq<Card>)
    requires Inv(s) && ConfigFormed(s.config) && s.initialDealer > 0
    ensures var r := ApplyControl(s, Redeal(deck));
            && (r.Accepted? <==> s.phase == AwaitingRedeal && FullDeck(deck))
            && (r.Accepted? ==>
                  && s.currentDeal.Some?
                  && var prior := s.currentDeal.value;
                     Dealt(s, r.next, deck, prior.number, prior.attempt + 1, prior.dealer, [prior]))
  {
    hide Inv, FullDeck, Distribute, Dealt, Advance;
    if s.phase == AwaitingRedeal && FullDeck(deck) {
      RedealFacts(s);
      var prior := s.currentDeal.value;
      DistributeMeans(s, deck, prior.number, prior.attempt + 1, prior.dealer, [prior]);
    }
  }

  lemma RedealFacts(s: Match)
    requires Inv(s) && s.phase == AwaitingRedeal
    ensures s.currentDeal.Some? && 1 <= s.currentDeal.value.number <= 5
    ensures 1 <= s.currentDeal.value.dealer <= s.config.count
  {
    hide ArchiveOk, TricksFormed, Settled, FullDeck, Unplayed, EachOf, Around, NoHandsLeft, AbandonedOk, ReplayTricks,
      HandsOk, BidsOk;
  }

  // ---- reviews and bids

  // A hand is accepted once; the bidding opens when everybody has accepted.
  lemma AcceptMeans(s: Match, id: nat)
    requires Inv(s) && ConfigFormed(s.config)
    ensures var r := ApplyPlayer(s, id, AcceptHand);
            && (r.Accepted? <==> s.phase == HandReview && 1 <= id <= s.config.count
                                 && s.currentDeal.Some? && id !in s.currentDeal.value.accepted)
            && (r.Accepted? ==>
                  && r.next.currentDeal.Some?
                  && var before, after := s.currentDeal.value, r.next.currentDeal.value;
                     && after == before.(accepted := after.accepted)
                     && Elems(after.accepted) == Elems(before.accepted) + {id}
                     && r.next == s.(phase := r.next.phase, currentDeal := Some(after), revision := s.revision + 1)
                     && (r.next.phase == HandReview || r.next.phase == Bidding)
                     && (r.next.phase == Bidding <==> forall q :: 1 <= q <= s.config.count ==> q in after.accepted))
  {
    hide Inv, ApplyReview;
    if s.phase == HandReview && 1 <= id <= s.config.count {
      InvBasics(s);
      ReviewedDeal(s);
      AcceptIs(s, s.currentDeal.value, id);
    }
  }

  lemma ReviewedDeal(s: Match)
    requires Inv(s) && s.phase == HandReview && s.currentDeal.Some?
    ensures ConfigFormed(s.config) && AcceptedOk(s.currentDeal.value.accepted, s.config.count)
            && s.preparation.None?
    ensures forall q :: 0 <= q < |s.currentDeal.value.players| ==> s.currentDeal.value.players[q].hand != []
  {
    hide ArchiveOk, TricksFormed, Settled, FullDeck, EachOf, Around, NoHandsLeft, AbandonedOk, ReplayTricks,
      HandsOk, BidsOk, DealAudit, Unplayed;
    var deal := s.currentDeal.value;
    AuditedFacts(deal, s.config);
    forall q | 0 <= q < |deal.players| ensures deal.players[q].hand != [] {
      HandNotEmpty(deal, s.config, q + 1);
    }
  }

  lemma AcceptIs(s: Match, deal: Deal, id: nat)
    requires ConfigFormed(s.config) && s.currentDeal == Some(deal) && s.phase == HandReview
    requires AcceptedOk(deal.accepted, s.config.count) && 1 <= id <= s.config.count == |deal.players|
    ensures var r := ApplyReview(s, deal, id, AcceptHand);
            && (r.Accepted? <==> id !in deal.accepted)
            && (r.Accepted? ==>
                  && r.next.currentDeal.Some?
                  && var after := r.next.currentDeal.value;
                     && after == deal.(accepted := after.accepted)
                     && Elems(after.accepted) == Elems(deal.accepted) + {id}
                     && r.next == s.(phase := r.next.phase, currentDeal := Some(after), revision := s.revision + 1)
                     && (r.next.phase == HandReview || r.next.phase == Bidding)
                     && (r.next.phase == Bidding <==> forall q :: 1 <= q <= s.config.count ==> q in after.accepted))
  {
    if id !in deal.accepted {
      InsertIdKeeps(deal.accepted, id, s.config.count);
      var accepted := InsertId(deal.accepted, id);
      hide InsertId;
      AcceptedFew(accepted, s.config.count);
      EverybodyAccepted(accepted, s.config.count);
      hide AcceptedOk;
      assert Elems(accepted) == Elems(deal.accepted) + {id};
    }
  }

  lemma EverybodyAccepted(ids: seq<nat>, n: nat)
    requires AcceptedOk(ids, n)
    ensures |ids| == n <==> forall q :: 1 <= q <= n ==> q in ids
  {
    AcceptedFew(ids, n);
    if |ids| == n {
      AllAccepted(ids, n);
      forall q | 1 <= q <= n ensures q in ids { assert ids[q - 1] == q; }
    }
    if forall q :: 1 <= q <= n ==> q in ids {
      RangeValues(1, n);
      var values: seq<int> := ids;
      SubsetFull(Elems(Range(1, n)), Elems(values));
      NoDupSize(values);
    }
  }

  // A player who has not accepted the hand may give it back when it qualifies.
  lemma ClaimMeans(s: Match, id: nat)
    requires Inv(s) && ConfigFormed(s.config)
    ensures var r := ApplyPlayer(s, id, ClaimRedeal);
            && (r.Accepted? <==>
                  && s.phase == HandReview && 1 <= id <= s.config.count
                  && s.currentDeal.Some? && |s.currentDeal.value.players| == s.config.count
                  && id !in s.currentDeal.value.accepted
                  && RedealAllowed(s.currentDeal.value.players[id - 1].hand, s.config.policy))
            && (r.Accepted? ==> r.next == s.(phase := AwaitingRedeal, revision := s.revision + 1))
  {
    hide Inv, RedealAllowed;
    if s.phase == HandReview && 1 <= id <= s.config.count {
      InvBasics(s);
      ReviewedDeal(s);
    }
  }

  // The first player from the dealer's left who has not bid yet.
  predicate NextToBid(deal: Deal, n: nat, id: nat)
    requires |deal.players| == n && 1 <= deal.dealer <= n
  {
    && 1 <= id <= n && deal.players[id - 1].bid.None?
    && forall i: nat :: i < HandIndex(deal.dealer, n, id) ==> BidAt(deal, i).Some?
  }

  lemma NextToBidIs(s: Match, id: nat)
    requires Inv(s) && s.phase == Bidding && s.currentDeal.Some?
    ensures ConfigFormed(s.config) && |s.currentDeal.value.players| == s.config.count
            && 1 <= s.currentDeal.value.dealer <= s.config.count && s.currentDeal.value.currentTrick.None?
    ensures CurrentOf(s) == Some(id) <==> NextToBid(s.currentDeal.value, s.config.count, id)
  {
    hide Inv, CurrentOk, Formed, DealAudit, TricksFormed, Settled, BidsOk, BidCount, BidAt, Advance,
      CurrentOf, EachOf, Tricks, AllBid, HandIndex;
    BiddingDealFacts(s);
    BidTurn(s);
    var deal, n := s.currentDeal.value, s.config.count;
    var c := BidCount(deal.players);
    BidOrder(deal, n);
    OrderCovers(deal, n);
    assert c < n;
    SameIndex(deal.dealer, n, c);
    var turn := Advance(deal.dealer, n, c + 1);
    assert NextToBid(deal, n, turn) by { BidAtSeat(deal, n, c); }
    if NextToBid(deal, n, id) {
      var i := HandIndex(deal.dealer, n, id);
      IndexSeat(deal.dealer, n, id);
      BidAtSeat(deal, n, i);
      assert BidAt(deal, i).None? && BidAt(deal, c).None?;
      assert i == c;
    }
  }

  // Bids are placed in turn from the dealer's left, once each; the last one opens
  // the first trick, which the player on the dealer's left leads.
  lemma BidMeans(s: Match, id: nat, amount: int)
    requires Inv(s) && ConfigFormed(s.config) && s.phase == Bidding && s.currentDeal.Some?
    requires |s.currentDeal.value.players| == s.config.count && 1 <= s.currentDeal.value.dealer <= s.config.count
    ensures var deal, n, r := s.currentDeal.value, s.config.count, ApplyPlayer(s, id, PlaceBid(amount));
            && (r.Accepted? <==> NextToBid(deal, n, id) && 1 <= amount <= TricksPerDeal(s.config))
            && (r.Accepted? ==>
                  && r.next.currentDeal.Some?
                  && var after := r.next.currentDeal.value;
                     && after.players == deal.players[id - 1 := deal.players[id - 1].(bid := Some(amount))]
                     && after == deal.(players := after.players, currentTrick := after.currentTrick)
                     && r.next == s.(phase := r.next.phase, currentDeal := Some(after), revision := s.revision + 1)
                     && if AllBid(after.players) then
                          r.next.phase == Playing && after.currentTrick == Some(Trick(n, Left(deal.dealer, n), []))
                        else r.next.phase == Bidding && after.currentTrick.None?)
  {
    hide Inv, CurrentOk, Formed, DealAudit, TricksFormed, Settled, BidsOk, BidCount, BidAt, Advance,
      CurrentOf, EachOf, Tricks, AllBid, NextToBid;
    NextToBidIs(s, id);
    BiddingDealFacts(s);
    BidTurn(s);
    var deal, n := s.currentDeal.value, s.config.count;
    LeftSteps(deal.dealer, n);
    if 1 <= id <= n && CurrentOf(s) == Some(id) {
      NewBid(deal, n, id, amount);
    } else {
      assert CurrentOf(s) != Some(id) || !(1 <= id <= n);
    }
  }

  // ---- playing a card

  // The deal in which a card was played, in progress or archived.
  function DealAfter(s: Match, t: Match): Option<Deal> {
    if t.currentDeal.Some? then t.currentDeal
    else if |t.completed| > |s.completed| then Some(t.completed[|s.completed|].deal)
    else None
  }

  lemma {:induction false} DroppedIs(hand: seq<Card>, card: Card)
    ensures NoDup(hand) && card in hand ==> multiset(Dropped(hand, card)) == multiset(hand) - multiset{card}
  {
    if hand != [] {
      assert hand == [hand[0]] + hand[1..];
      DroppedIs(hand[1..], card);
      NoDupConcat([hand[0]], hand[1..]);
      assert card == hand[0] ==> card in Elems([hand[0]]);
      if hand[0] == card && NoDup(hand) { NothingDropped(hand[1..], card); }
    }
  }

  lemma {:induction false} NothingDropped(hand: seq<Card>, card: Card)
    requires card !in hand
    ensures Dropped(hand, card) == hand
  {
    if hand != [] {
      assert hand == [hand[0]] + hand[1..];
      NothingDropped(hand[1..], card);
    }
  }

  // Who may play which card.
  lemma PlayAccepted(s: Match, id: nat, card: Card)
    requires Inv(s) && ConfigFormed(s.config) && s.phase == Playing
    ensures s.currentDeal.Some? && s.currentDeal.value.currentTrick.Some?
    ensures |s.currentDeal.value.players| == s.config.count
    ensures var deal := s.currentDeal.value; var t := deal.currentTrick.value;
            && t.count == s.config.count && t.leader > 0 && TrickFormed(t) && |t.plays| < t.count
            && (ApplyPlayer(s, id, PlayCard(card)).Accepted? <==>
                  && id == Turn(t.count, t.leader, |t.plays|) && 1 <= id <= s.config.count
                  && MayPlay(Elems(deal.players[id - 1].hand), t.plays, card))
  {
    PlayingDeal(s);
    var deal := s.currentDeal.value;
    CurrentFormed(deal, s.config);
    var t := deal.currentTrick.value;
    NotComplete(deal, s.config);
    FormedLeader(t);
    CurrentTurn(s);
    if 1 <= id <= s.config.count {
      AvailableAccepted(s, id, card);
      AvailableIs(s, id);
      hide Inv, AvailableCards, MayPlay, LegalCards, ApplyPlayer, TrickFormed, DealAudit, Settled,
        TricksFormed, CurrentOk;
      var hand := deal.players[id - 1].hand;
      assert card in LegalCards(hand, t.plays) <==> card in Elems(LegalCards(hand, t.plays));
      LegalMeans(Elems(hand), t.plays, card) by { assert NoDup(PlayedCards(t.plays)) by { PlaysDistinct(t); } }
    }
  }

  lemma PlaysDistinct(t: Trick)
    requires TrickFormed(t)
    ensures NoDup(PlayedCards(t.plays))
  {
  }

  lemma NotComplete(deal: Deal, config: Config)
    requires ConfigFormed(config) && TricksFormed(Tricks(deal)) && DealAudit(deal, config) && deal.currentTrick.Some?
    ensures |deal.currentTrick.value.plays| < deal.currentTrick.value.count
  {
    CurrentFormed(deal, config);
    hide TricksFormed, ReplayTricks, FullDeck, BidAt, HandsOk, BidsOk;
  }

  // The card leaves the hand and joins the trick; everything else of the hands, bids
  // and tricks stays.
  ghost predicate CardMoved(before: Deal, after: Deal, id: nat, card: Card) {
    && after == before.(players := after.players, currentTrick := after.currentTrick, completed := after.completed)
    && |after.players| == |before.players|
    && forall q :: 0 <= q < |before.players| ==>
         && after.players[q] == before.players[q].(hand := after.players[q].hand)
         && multiset(after.players[q].hand) + (if q + 1 == id then multiset{card} else multiset{})
            == multiset(before.players[q].hand)
  }

  // A trick goes on until everybody has played. Its winner leads the next one, and
  // after the last one the deal is archived, and the match over with the fifth.
  ghost predicate TrickMoved(s: Match, deal: Deal, next: Match, after: Deal, played: Trick)
    requires ConfigFormed(s.config) && played.plays != []
  {
    if |played.plays| < s.config.count then
      && after.completed == deal.completed && after.currentTrick == Some(played)
      && next == s.(currentDeal := Some(after), revision := s.revision + 1)
    else
      && after.completed == deal.completed + [played]
      && if |after.completed| < TricksPerDeal(s.config) then
           var winner := played.plays[WinnerIndex(played.plays)].player;
           && after.currentTrick == Some(Trick(s.config.count, winner, []))
           && next == s.(currentDeal := Some(after), revision := s.revision + 1)
         else
           && after.currentTrick.None? && |next.completed| == |s.completed| + 1
           && next == s.(currentDeal := None, revision := s.revision + 1,
                completed := s.completed + [CompletedDeal(after, next.completed[|s.completed|].result)],
                phase := if |next.completed| == 5 then MatchComplete else DealComplete)
  }

  lemma PlayMeans(s: Match, id: nat, card: Card)
    requires Inv(s) && ConfigFormed(s.config) && s.phase == Playing && ApplyPlayer(s, id, PlayCard(card)).Accepted?
    ensures s.currentDeal.Some? && s.currentDeal.value.currentTrick.Some?
    ensures var deal, next := s.currentDeal.value, ApplyPlayer(s, id, PlayCard(card)).next;
            && DealAfter(s, next).Some?
            && var t, after := deal.currentTrick.value, DealAfter(s, next).value;
               CardMoved(deal, after, id, card)
               && TrickMoved(s, deal, next, after, t.(plays := t.plays + [Play(id, card)]))
  {
    hide *;
    PlayAccepted(s, id, card);
    PlayedDeal(s);
    PlayIsApplied(s, id, card);
    var deal := s.currentDeal.value;
    FormedLeader(deal.currentTrick.value);
    PlayIs(s, deal, id, card);
  }

  lemma PlayIsApplied(s: Match, id: nat, card: Card)
    requires ConfigFormed(s.config) && s.phase == Playing && s.currentDeal.Some?
    requires ApplyPlayer(s, id, PlayCard(card)).Accepted?
    ensures 1 <= id <= |s.currentDeal.value.players|
    ensures ApplyPlayer(s, id, PlayCard(card)) == ApplyPlay(s, s.currentDeal.value, id, card)
  {
    hide ApplyPlay, CurrentOf, Distribute, ApplyBid, ApplyReview, ApplyPreparation;
  }

  // What the record of the deal says while it is played.
  lemma PlayedDeal(s: Match)
    requires Inv(s) && s.phase == Playing && s.currentDeal.Some?
    ensures var deal := s.currentDeal.value;
            && RosterOk(deal.players, s.config.count) && deal.number == |s.completed| + 1
            && forall q :: 0 <= q < |deal.players| ==> NoDup(deal.players[q].hand)
  {
    PlayingDeal(s);
    var deal := s.currentDeal.value;
    hide ArchiveOk, TricksFormed, Settled, FullDeck, BidsOk, TricksOk, ReplayTricks, AbandonedOk, NoDup, PreparationOk;
    assert HandsOk(deal, s.config.count, TricksPerDeal(s.config));
    hide HandsOk;
    forall q | 0 <= q < |deal.players| ensures NoDup(deal.players[q].hand) {
      HandDistinct(deal, s.config.count, TricksPerDeal(s.config), q);
    }
  }

  lemma PlayIs(s: Match, deal: Deal, id: nat, card: Card)
    requires ConfigFormed(s.config) && s.currentDeal == Some(deal) && deal.currentTrick.Some? && s.phase == Playing
    requires deal.currentTrick.value.count == s.config.count && deal.currentTrick.value.leader > 0
    requires |deal.currentTrick.value.plays| < s.config.count
    requires RosterOk(deal.players, s.config.count) && 1 <= id <= |deal.players| && deal.number == |s.completed| + 1
    requires forall q :: 0 <= q < |deal.players| ==> NoDup(deal.players[q].hand)
    requires ApplyPlay(s, deal, id, card).Accepted?
    ensures var next := ApplyPlay(s, deal, id, card).next;
            && DealAfter(s, next).Some?
            && var t, after := deal.currentTrick.value, DealAfter(s, next).value;
               CardMoved(deal, after, id, card)
               && TrickMoved(s, deal, next, after, t.(plays := t.plays + [Play(id, card)]))
  {
    PlayPassed(s, deal, id, card);
    LegalPlayShape(s, deal, id, card);
    MovedIs(deal, s.config.count, id, card);
    var d := Played(deal, id, card);
    assert d.completed == deal.completed && d.number == deal.number;
    if FinishDeal(s, Archived(d)).Accepted? { ArchivedIs(s, Archived(d)); }
    CardMovedOn(deal, d, id, card);
    hide FinishDeal, WinnerIndex, TrickFormed, ConfigFormed, RosterOk, NoDup, EachOf, ApplyPlay, CardMoved,
      WithoutCard, Played;
  }

  lemma ArchivedIs(s: Match, a: Deal)
    requires FinishDeal(s, a).Accepted?
    ensures var next := FinishDeal(s, a).next;
            && |next.completed| == |s.completed| + 1
            && next == s.(currentDeal := None, revision := s.revision + 1,
                 completed := s.completed + [CompletedDeal(a, next.completed[|s.completed|].result)],
                 phase := if a.number == 5 then MatchComplete else DealComplete)
  {
    hide ScoreDeal, TricksWon, AllBid;
  }

  lemma PlayPassed(s: Match, deal: Deal, id: nat, card: Card)
    requires ConfigFormed(s.config) && 1 <= id <= |deal.players| && ApplyPlay(s, deal, id, card).Accepted?
    requires deal.currentTrick.Some? && deal.currentTrick.value.count > 0 && deal.currentTrick.value.leader > 0
    ensures ValidatePlay(deal.players[id - 1].hand, deal.currentTrick.value, id, card) == Ok
    ensures card in deal.players[id - 1].hand
    ensures Played(deal, id, card).currentTrick.Some? && TrickFormed(Played(deal, id, card).currentTrick.value)
  {
    hide TrickFormed, FinishDeal, LegalCards, HandOk, WithoutCard;
  }

  // The archived and the resumed deal have the hands of the played one.
  lemma CardMovedOn(deal: Deal, d: Deal, id: nat, card: Card)
    requires CardMoved(deal, d, id, card) && d.currentTrick.Some?
    ensures CardMoved(deal, Archived(d), id, card)
    ensures forall n, leader :: CardMoved(deal, Resumed(Archived(d), n, leader), id, card)
  {
  }

  lemma MovedIs(deal: Deal, n: nat, id: nat, card: Card)
    requires RosterOk(deal.players, n) && 1 <= id <= n && deal.currentTrick.Some?
    requires NoDup(deal.players[id - 1].hand) && card in deal.players[id - 1].hand
    ensures CardMoved(deal, Played(deal, id, card), id, card)
  {
    hide NoDup, WithoutCard;
    DroppedIs(deal.players[id - 1].hand, card);
    WithoutIs(deal.players, n, id, card);
  }

  lemma WithoutIs(players: seq<PlayerDeal>, n: nat, id: nat, card: Card)
    requires RosterOk(players, n) && 1 <= id <= n
    ensures WithoutCard(players, id, card) ==
            players[id - 1 := players[id - 1].(hand := Dropped(players[id - 1].hand, card))]
  {
  }

  // ---- refusals

  // The phase an action belongs to.
  function PhaseOf(action: Action): Phase {
    match action
    case ShuffleDeck => AwaitingShuffle
    case CutDeck(_) => AwaitingCut
    case SkipCut => AwaitingCut
    case StartDistribution => AwaitingDistribution
    case AcceptHand => HandReview
    case ClaimRedeal => HandReview
    case PlaceBid(_) => Bidding
    case PlayCard(_) => Playing
  }

  // Why a player's action in its phase is refused.
  ghost predicate RefusedFor(s: Match, id: nat, action: Action, code: Code)
    requires 1 <= id <= s.config.count && s.phase == PhaseOf(action)
  {
    match action
    case ShuffleDeck => code == NotYourTurn
    case SkipCut => code == NotYourTurn
    case StartDistribution => code == NotYourTurn
    case CutDeck(_) =>
      s.preparation.Some?
      && code == if id == Left(s.preparation.value.dealer, s.config.count) then InvalidCut else NotYourTurn
    case AcceptHand => code == HandAlreadyAccepted
    case ClaimRedeal =>
      s.currentDeal.Some?
      && code == if id in s.currentDeal.value.accepted then HandAlreadyAccepted else RedealNotAllowed
    case PlaceBid(_) =>
      && s.currentDeal.Some? && |s.currentDeal.value.players| == s.config.count
      && 1 <= s.currentDeal.value.dealer <= s.config.count
      && code == if NextToBid(s.currentDeal.value, s.config.count, id) then InvalidBid else NotYourTurn
    case PlayCard(card) =>
      && s.currentDeal.Some? && |s.currentDeal.value.players| == s.config.count
         && s.currentDeal.value.currentTrick.Some?
      && var t := s.currentDeal.value.currentTrick.value;
         && t.count > 0 && t.leader > 0
         && code == if id != Turn(t.count, t.leader, |t.plays|) then NotYourTurn
                    else if card !in s.currentDeal.value.players[id - 1].hand then CardNotOwned
                    else IllegalCard
  }

  // Every refusal says why: strangers first, then a match or phase that does not
  // take the action, then what the action itself lacks.
  lemma RefusalsMean(s: Match, id: nat, action: Action)
    requires Inv(s) && ConfigFormed(s.config) && !ApplyPlayer(s, id, action).Accepted?
    ensures ApplyPlayer(s, id, action).Rejected?
    ensures var code := ApplyPlayer(s, id, action).code;
            if !(1 <= id <= s.config.count) then code == InvalidPlayer
            else if s.phase == MatchComplete then code == MatchFinished
            else if s.phase != PhaseOf(action) then code == InvalidPhase
            else RefusedFor(s, id, action, code)
  {
    hide Inv, ApplyBid, ApplyReview, ApplyPlay, Distribute, RefusedFor, CurrentOf, Left, Cut;
    PlayerKeeps(s, id, action);
    hide Keeps;
    if 1 <= id <= s.config.count && s.phase == PhaseOf(action) {
      match action
      case PlaceBid(amount) => BidRefused(s, id, amount);
      case PlayCard(card) => PlayRefused(s, id, card);
      case AcceptHand => ReviewRefused(s, id, action);
      case ClaimRedeal => ReviewRefused(s, id, action);
      case _ => PreparationRefused(s, id, action);
    }
  }

  lemma BidRefused(s: Match, id: nat, amount: int)
    requires Inv(s) && 1 <= id <= s.config.count && s.phase == Bidding && ConfigFormed(s.config)
    requires ApplyPlayer(s, id, PlaceBid(amount)).Rejected?
    ensures RefusedFor(s, id, PlaceBid(amount), ApplyPlayer(s, id, PlaceBid(amount)).code)
  {
    hide Inv, NextToBid, BidCount, Advance, CurrentOf, Formed, CurrentOk, DealAudit, TricksFormed, Settled,
      BidsOk, BidAt,
      AllBid;
    InvBasics(s);
    BiddingDealFacts(s);
    NextToBidIs(s, id);
    BidMeans(s, id, amount);
    if CurrentOf(s) == Some(id) {
      BidTurn(s);
      NewBid(s.currentDeal.value, s.config.count, id, amount);
    }
  }

  lemma PlayRefused(s: Match, id: nat, card: Card)
    requires Inv(s) && 1 <= id <= s.config.count && s.phase == Playing && ConfigFormed(s.config)
    requires ApplyPlayer(s, id, PlayCard(card)).Rejected?
    ensures RefusedFor(s, id, PlayCard(card), ApplyPlayer(s, id, PlayCard(card)).code)
  {
    hide Inv, Turn, MayPlay, CurrentOf, TrickFormed, LegalCards, CurrentPlayer, HandOk;
    PlayAccepted(s, id, card);
    PlayingDeal(s);
    hide DealAudit, TricksFormed, Settled, CurrentOk;
    CurrentTurn(s);
    var t := s.currentDeal.value.currentTrick.value;
    TurnIsCurrent(t);
    FormedLeader(t);
    if CurrentPlayer(t) == Some(id) {
      HeldHand(s.currentDeal.value, s.config, id);
    }
  }

  lemma TurnIsCurrent(t: Trick)
    requires t.count > 0 && t.leader > 0 && |t.plays| < t.count
    ensures CurrentPlayer(t) == Some(Turn(t.count, t.leader, |t.plays|))
  {
  }

  lemma ReviewRefused(s: Match, id: nat, action: Action)
    requires Inv(s) && 1 <= id <= s.config.count && s.phase == HandReview && ConfigFormed(s.config)
    requires action.AcceptHand? || action.ClaimRedeal?
    requires ApplyPlayer(s, id, action).Rejected?
    ensures RefusedFor(s, id, action, ApplyPlayer(s, id, action).code)
  {
    hide Inv, RedealAllowed, InsertId;
    InvBasics(s);
  }

  lemma PreparationRefused(s: Match, id: nat, action: Action)
    requires Inv(s) && 1 <= id <= s.config.count && s.phase == PhaseOf(action) && ConfigFormed(s.config)
    requires Preparing(s.phase) && ApplyPlayer(s, id, action).Rejected?
    ensures RefusedFor(s, id, action, ApplyPlayer(s, id, action).code)
  {
    hide Inv, Cut, FullDeck, Distribute, Advance;
    PreparationFacts(s);
    LeftSteps(s.preparation.value.dealer, s.config.count);
    if action.StartDistribution? {
      DistributionMeans(s, id);
    }
  }
}
