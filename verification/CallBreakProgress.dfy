// A match never gets stuck and always ends: someone can always act, and only a
// redeal moves a match away from its end.
module CallBreakProgress {
  import opened Prelude
  import opened Cards
  import opened Dealing
  import opened CallBreakRules
  import opened CallBreakDeals
  import opened CallBreakMatch
  import opened CallBreakInvariant
  import opened CallBreakPlay
  import opened CallBreakRuns

  // ---- the player to move has a card to play

  lemma CardsLeft(deal: Deal, config: Config, id: nat)
    requires ConfigFormed(config) && TricksFormed(Tricks(deal)) && DealAudit(deal, config) && deal.currentTrick.Some?
    requires deal.currentTrick.value.leader > 0 && deal.currentTrick.value.count > 0
    requires 1 <= id <= config.count && CurrentPlayer(deal.currentTrick.value) == Some(id)
    ensures |deal.players[id - 1].hand| == TricksPerDeal(config) - |deal.completed| > 0
  {
    var n, each, t := config.count, TricksPerDeal(config), deal.currentTrick.value;
    CurrentFormed(deal, config);
    TricksOf(deal, t);
    SplitTricks(deal.completed, t, n);
    hide FullDeck, BidAt, ReplayTricks, CardsBy, AllPlays, Flat, TrickFormed, Complete, TricksFormed, SameTable, BidsOk;
    OneCardATrick(deal.completed, n, id);
    NotYetPlayed(t, id);
    CardsByConcat(AllPlays(deal.completed), t.plays, id);
    assert |Rebuilt(deal.players, Tricks(deal))[id - 1]| == each;
  }

  lemma NotYetPlayed(t: Trick, id: nat)
    requires TrickFormed(t) && 1 <= id <= t.count && CurrentPlayer(t) == Some(id)
    ensures CardsBy(t.plays, id) == []
  {
    hide CardsBy;
    assert t.plays[..|t.plays|] == t.plays;
    CardsOfPrefix(t, id, |t.plays|);
    TurnOf(t.count, t.leader, id, |t.plays|);
  }

  // available_cards: what the player to move may play.
  function AvailableCards(s: Match, id: nat): seq<Card>
    requires Inv(s) && 1 <= id <= s.config.count
  {
    InvBasics(s);
    if s.phase != Playing then []
    else
      PlayingDeal(s);
      CurrentFormed(s.currentDeal.value, s.config);
      var t := s.currentDeal.value.currentTrick.value;
      FormedLeader(t);
      if CurrentPlayer(t) != Some(id) then [] else LegalCards(s.currentDeal.value.players[id - 1].hand, t.plays)
  }

  lemma AvailableIs(s: Match, id: nat)
    requires Inv(s) && 1 <= id <= s.config.count && s.phase == Playing
    ensures s.currentDeal.Some? && s.currentDeal.value.currentTrick.Some?
            && |s.currentDeal.value.players| == s.config.count
    ensures var t := s.currentDeal.value.currentTrick.value;
            && t.count > 0 && t.leader > 0
            && AvailableCards(s, id) ==
               if CurrentPlayer(t) != Some(id) then [] else LegalCards(s.currentDeal.value.players[id - 1].hand, t.plays)
  {
    PlayingDeal(s);
    CurrentFormed(s.currentDeal.value, s.config);
    FormedLeader(s.currentDeal.value.currentTrick.value);
    hide Inv, DealAudit, TricksFormed, Settled, TrickFormed, CurrentOk, CurrentPlayer, LegalCards;
  }

  // The advertised cards are exactly the ones accepted.
  lemma AvailableAccepted(s: Match, id: nat, card: Card)
    requires Inv(s) && 1 <= id <= s.config.count && ConfigFormed(s.config)
    ensures card in AvailableCards(s, id) <==> ApplyPlayer(s, id, PlayCard(card)).Accepted?
  {
    hide Inv, AvailableCards, ApplyPlay, ApplyBid, ApplyReview, ApplyPreparation, Distribute, CurrentOf, LegalCards;
    if s.phase == Playing {
      AvailableIs(s, id);
      CurrentTurn(s);
      if CurrentOf(s) == Some(id) { LegalAccepted(s, id, card); }
    } else {
      NothingAvailable(s, id);
    }
  }

  lemma NothingAvailable(s: Match, id: nat)
    requires Inv(s) && 1 <= id <= s.config.count && s.phase != Playing
    ensures AvailableCards(s, id) == []
  {
  }

  lemma LegalAccepted(s: Match, id: nat, card: Card)
    requires Inv(s) && ConfigFormed(s.config) && s.phase == Playing && s.currentDeal.Some?
             && s.currentDeal.value.currentTrick.Some?
    requires 1 <= id <= s.config.count == |s.currentDeal.value.players|
    requires s.currentDeal.value.currentTrick.value.count > 0 && s.currentDeal.value.currentTrick.value.leader > 0
    requires CurrentPlayer(s.currentDeal.value.currentTrick.value) == Some(id)
    ensures card in LegalCards(s.currentDeal.value.players[id - 1].hand,
            s.currentDeal.value.currentTrick.value.plays) <==>
            ApplyPlay(s, s.currentDeal.value, id, card).Accepted?
  {
    PlayingDeal(s);
    var deal := s.currentDeal.value;
    CurrentFormed(deal, s.config);
    var t, hand := deal.currentTrick.value, deal.players[id - 1].hand;
    HeldHand(deal, s.config, id);
    FormedLeader(t);
    CurrentSeated(t);
    hide Inv, DealAudit, TricksFormed, Settled, ReplayTricks, TrickFormed, CurrentOk, HandOk, LegalCards,
      Turn, Played, FinishDeal;
    LegalHeld(hand, t.plays, card);
    if ValidatePlay(hand, t, id, card) == Ok {
      LegalPlayKeeps(s, id, card);
    }
  }

  lemma CurrentSeated(t: Trick)
    requires t.count > 0 && t.leader > 0
    ensures CurrentPlayer(t).Some? ==> 1 <= CurrentPlayer(t).value <= t.count && !Complete(t)
  {
  }

  lemma LegalHeld(hand: seq<Card>, plays: seq<Play>, card: Card)
    ensures card in LegalCards(hand, plays) ==> card in hand
  {
    var legal := LegalCards(hand, plays);
    assert card in legal ==> card in Elems(legal);
  }

  lemma CurrentTurn(s: Match)
    requires Inv(s) && s.phase == Playing && s.currentDeal.Some? && s.currentDeal.value.currentTrick.Some?
             && s.config.count > 0
    requires s.currentDeal.value.currentTrick.value.count > 0 && s.currentDeal.value.currentTrick.value.leader > 0
    ensures CurrentOf(s) == CurrentPlayer(s.currentDeal.value.currentTrick.value)
  {
    hide CurrentPlayer, ArchiveOk, CurrentOk, TricksFormed, Settled;
  }

  // In the playing phase somebody has the turn and a card that will be accepted.
  lemma SomeoneCanPlay(s: Match)
    requires Inv(s) && s.phase == Playing && s.config.count > 0
    ensures CurrentOf(s).Some? && 1 <= CurrentOf(s).value <= s.config.count
    ensures AvailableCards(s, CurrentOf(s).value) != []
  {
    PlayingDeal(s);
    var deal := s.currentDeal.value;
    CurrentFormed(deal, s.config);
    var t := deal.currentTrick.value;
    FormedLeader(t);
    CurrentTurn(s);
    assert !Complete(t) by { hide TricksFormed, ReplayTricks, FullDeck, BidAt; }
    var id := CurrentOf(s).value;
    hide Inv, DealAudit, Settled, ReplayTricks, TricksFormed, TrickFormed, CurrentOk;
    CardsLeft(deal, s.config, id);
    var hand := deal.players[id - 1].hand;
    var legal := LegalCards(hand, t.plays);
    assert hand[0] in Elems(hand);
    assert exists c :: c in Elems(legal);
  }

  // Before its end a match always has a command that will be accepted: a deal to
  // prepare, a deck to complete, or something for a player to do.
  lemma SomeoneCanAct(s: Match) returns (e: Entry)
    requires Inv(s) && s.phase != MatchComplete
    ensures ConfigFormed(s.config) && s.initialDealer > 0 && Step(s, e).Accepted?
  {
    hide Inv, Step, CurrentOf;
    InvBasics(s);
    match s.phase
    case AwaitingDeal => e := FromController(PrepareDeal); BoundaryCanPrepare(s);
    case DealComplete => e := FromController(PrepareDeal); BoundaryCanPrepare(s);
    case AwaitingRedeal => e := FromController(PrepareDeal); BoundaryCanPrepare(s);
    case Shuffling => e := ShuffleCanComplete(s);
    case AwaitingShuffle => e := PreparerCanAct(s);
    case AwaitingCut => e := PreparerCanAct(s);
    case AwaitingDistribution => e := PreparerCanAct(s);
    case HandReview => e := ReviewCanGoOn(s);
    case Bidding => e := BidderCanAct(s);
    case Playing =>
      SomeoneCanPlay(s);
      var id := CurrentOf(s).value;
      var card := AvailableCards(s, id)[0];
      AvailableAccepted(s, id, card);
      e := FromPlayer(id, PlayCard(card));
      StepIs(s, e);
  }

  lemma StepIs(s: Match, e: Entry)
    requires ConfigFormed(s.config) && s.initialDealer > 0
    ensures e.FromPlayer? ==> Step(s, e) == ApplyPlayer(s, e.actor, e.action)
    ensures e.FromController? ==> Step(s, e) == ApplyControl(s, e.command)
  {
  }

  lemma BoundaryCanPrepare(s: Match)
    requires Inv(s) && ConfigFormed(s.config) && s.initialDealer > 0
    requires s.phase == AwaitingDeal || s.phase == DealComplete || s.phase == AwaitingRedeal
    ensures Step(s, FromController(PrepareDeal)).Accepted?
  {
    hide ArchiveOk, Settled, DealAudit, TricksFormed, AbandonedOk, NextDealer;
  }

  lemma ShuffleCanComplete(s: Match) returns (e: Entry)
    requires Inv(s) && ConfigFormed(s.config) && s.initialDealer > 0 && s.phase == Shuffling
    ensures Step(s, e).Accepted?
  {
    hide ArchiveOk, Settled, DealAudit, TricksFormed, AbandonedOk, CurrentOk, NextDealer;
    Standard52Is();
    e := FromController(CompleteShuffle(Standard52()));
  }

  lemma PreparerCanAct(s: Match) returns (e: Entry)
    requires Inv(s) && ConfigFormed(s.config) && s.initialDealer > 0
    requires s.phase == AwaitingShuffle || s.phase == AwaitingCut || s.phase == AwaitingDistribution
    ensures Step(s, e).Accepted?
  {
    hide ArchiveOk, Settled, DealAudit, TricksFormed, AbandonedOk, CurrentOk, Distribute, Around, FullDeck, Keeps;
    var dealer := s.preparation.value.dealer;
    assert 1 <= dealer <= s.config.count;
    if s.phase == AwaitingShuffle {
      e := FromPlayer(dealer, ShuffleDeck);
    } else if s.phase == AwaitingCut {
      e := FromPlayer(Advance(dealer, s.config.count, 1), SkipCut);
    } else {
      e := FromPlayer(dealer, StartDistribution);
      DistributionKeeps(s, dealer);
      Distributes(s, s.preparation.value);
    }
  }

  lemma Distributes(s: Match, p: Preparation)
    requires ConfigFormed(s.config) && Keeps(Distribute(s, p.deck, p.number, p.attempt, p.dealer, []))
    ensures Distribute(s, p.deck, p.number, p.attempt, p.dealer, []).Accepted?
  {
    hide Inv, DealAudit, NewDeal;
  }

  // Somebody has not accepted the hand yet.
  lemma ReviewCanGoOn(s: Match) returns (e: Entry)
    requires Inv(s) && ConfigFormed(s.config) && s.initialDealer > 0 && s.phase == HandReview
    ensures Step(s, e).Accepted?
  {
    hide ArchiveOk, Settled, DealAudit, TricksFormed, AbandonedOk, InsertId;
    InvBasics(s);
    var deal, n := s.currentDeal.value, s.config.count;
    assert |deal.accepted| < n;
    var id := Missing(deal.accepted, n);
    e := FromPlayer(id, AcceptHand);
  }

  // Fewer than n numbers leave out one of 1..n.
  lemma Missing(ids: seq<nat>, n: nat) returns (id: nat)
    requires |ids| < n
    ensures 1 <= id <= n && id !in ids
  {
    var values: seq<int> := seq(|ids|, i requires 0 <= i < |ids| => ids[i]);
    NoDupSize(values);
    if Window(1, n) <= Elems(values) { SubsetFull(Window(1, n), Elems(values)); }
    var x :| x in Window(1, n) && x !in Elems(values);
    forall i | 0 <= i < |ids| ensures ids[i] != x {
      assert values[i] in Elems(values);
    }
    id := x;
  }

  lemma BidderCanAct(s: Match) returns (e: Entry)
    requires Inv(s) && ConfigFormed(s.config) && s.initialDealer > 0 && s.phase == Bidding
    ensures Step(s, e).Accepted?
  {
    hide Inv, CurrentOk, Formed, DealAudit, TricksFormed, Settled, BidsOk, BidCount, BidAt, Advance,
      CurrentOf, Tricks, AllBid, Around;
    InvBasics(s);
    BiddingDealFacts(s);
    BidTurn(s);
    var deal, n := s.currentDeal.value, s.config.count;
    var id := Advance(deal.dealer, n, 1 + BidCount(deal.players));
    NewBid(deal, n, id, 1);
    e := FromPlayer(id, PlaceBid(1));
  }

  // ---- how far a deal has come

  // Cards played so far in a deal.
  function Moves(deal: Deal): nat {
    |AllPlays(Tricks(deal))|
  }

  lemma {:induction false} OneMoreBid(players: seq<PlayerDeal>, q: nat, amount: int)
    requires q < |players| && players[q].bid.None?
    ensures BidCount(players[q := players[q].(bid := Some(amount))]) == BidCount(players) + 1
  {
    var after := players[q := players[q].(bid := Some(amount))];
    var init := players[..|players| - 1];
    if q == |players| - 1 {
      assert after[..|after| - 1] == init;
    } else {
      assert after[..|after| - 1] == init[q := init[q].(bid := Some(amount))];
      OneMoreBid(init, q, amount);
    }
  }

  lemma {:induction false} PlaysOfComplete(tricks: seq<Trick>, n: nat)
    requires SameTable(tricks, n) && forall i :: 0 <= i < |tricks| ==> Complete(tricks[i])
    ensures |AllPlays(tricks)| == |tricks| * n
  {
    if tricks != [] {
      PlaysOfComplete(tricks[..|tricks| - 1], n);
      assert |tricks| * n == (|tricks| - 1) * n + n;
    }
  }

  // An accepted bid is one more bid; the last one opens the first trick.
  lemma BidMoves(s: Match, id: nat, amount: int)
    requires Inv(s) && s.currentDeal.Some? && s.phase == Bidding && CurrentOf(s) == Some(id)
    requires 1 <= id <= s.config.count && id <= |s.currentDeal.value.players|
    requires ApplyBid(s, s.currentDeal.value, id, amount).Accepted?
    ensures var t := ApplyBid(s, s.currentDeal.value, id, amount).next; var c := BidCount(s.currentDeal.value.players);
            && t.completed == s.completed && t.currentDeal.Some? && c < s.config.count
            && (t.phase == Bidding && c < s.config.count - 1 ==> BidCount(t.currentDeal.value.players) == c + 1)
            && (t.phase == Bidding <==> c < s.config.count - 1)
            && (t.phase == Playing || t.phase == Bidding)
            && (t.phase == Playing ==> Moves(t.currentDeal.value) == 0)
  {
    hide Inv, BidCount, Advance, AllPlays, BidAt, Around, Moves, Tricks, CurrentOf, DealAudit, TricksFormed,
      Settled, BidsOk, Formed, CurrentOk,
      EachOf;
    var deal := s.currentDeal.value;
    BiddingDealFacts(s);
    BidTurn(s);
    NewBid(deal, s.config.count, id, amount);
    hide WithBid;
    OneMoreBid(deal.players, id - 1, amount);
    if ApplyBid(s, deal, id, amount).next.phase == Playing { LastBidOpens(s, deal, id, amount); }
  }

  // The last bid opens a trick in which nothing has been played.
  lemma LastBidOpens(s: Match, deal: Deal, id: nat, amount: int)
    requires s.currentDeal == Some(deal) && s.phase == Bidding && ConfigFormed(s.config) && deal.dealer > 0
             && deal.completed == []
    requires 1 <= id <= |deal.players| && ApplyBid(s, deal, id, amount).Accepted?
    ensures var t := ApplyBid(s, deal, id, amount).next;
            t.phase == Playing ==> t.currentDeal.Some? && Moves(t.currentDeal.value) == 0
  {
    hide AllPlays, Around, Advance, BidCount, AllBid, WithBid;
    var t := ApplyBid(s, deal, id, amount).next;
    if t.phase == Playing {
      NoPlays(s.config.count, Advance(deal.dealer, s.config.count, 1));
      assert Tricks(t.currentDeal.value) == [Trick(s.config.count, Advance(deal.dealer, s.config.count, 1), [])];
    }
  }

  lemma NoPlays(n: nat, leader: nat)
    ensures AllPlays([Trick(n, leader, [])]) == []
  {
    assert [Trick(n, leader, [])][..0] == [];
    assert AllPlays([]) == [];
  }

  lemma MovesOf(deal: Deal, id: nat, card: Card, n: nat, leader: nat)
    requires deal.currentTrick.Some?
    ensures Moves(Played(deal, id, card)) == Moves(deal) + 1
    ensures var a := Archived(Played(deal, id, card));
            Moves(a) == Moves(deal) + 1 && Moves(Resumed(a, n, leader)) == Moves(deal) + 1
  {
    var d := Played(deal, id, card);
    TricksOf(deal, deal.currentTrick.value);
    TricksOf(d, d.currentTrick.value);
    var a := Archived(d);
    assert Tricks(a) == Tricks(d);
    assert Tricks(Resumed(a, n, leader)) == Tricks(a) + [Trick(n, leader, [])];
    AllPlaysNext(Tricks(a), Trick(n, leader, []));
  }

  // A played card is one more card; the last one ends the deal.
  lemma PlayMoves(s: Match, id: nat, card: Card)
    requires Inv(s) && s.currentDeal.Some? && s.phase == Playing
    requires 1 <= id <= s.config.count && id <= |s.currentDeal.value.players|
    requires ApplyPlay(s, s.currentDeal.value, id, card).Accepted?
    ensures var t := ApplyPlay(s, s.currentDeal.value, id, card).next; var all := s.config.count * TricksPerDeal(s.config);
            && Moves(s.currentDeal.value) < all
            && if t.phase == Playing then
                 t.completed == s.completed && t.currentDeal.Some?
                     && Moves(t.currentDeal.value) == Moves(s.currentDeal.value) + 1
               else
                 (t.phase == DealComplete || t.phase == MatchComplete) && |t.completed| == |s.completed| + 1
                 && Moves(s.currentDeal.value) + 1 == all
  {
    var deal, config := s.currentDeal.value, s.config;
    PlayingDeal(s);
    CurrentFormed(deal, config);
    FormedLeader(deal.currentTrick.value);
    MovesBound(deal, config);
    hide Inv, AuditMatch, ConfigFormed, CurrentOk, Settled, ReplayTricks, TricksFormed, DealAudit,
      ValidatePlay, TrickFormed, Played,
      FinishDeal, Winner, Opening, RosterOk, HandsOk, Moves, Complete, TricksPerDeal;
    LegalIfPlayed(s, deal, id, card);
    PlayedOk(deal, config, id, card);
    PlayedIs(deal, config.count, id, card);
    var d := Played(deal, id, card);
    LegalPlayShape(s, deal, id, card);
    hide ApplyPlay;
    var w := if Complete(d.currentTrick.value) then Winner(d.currentTrick.value) else 1;
    MovesOf(deal, id, card, config.count, w);
    if Complete(d.currentTrick.value) {
      ArchivedOk(deal, config, id, card);
      WinnerSeated(d.currentTrick.value);
      FormedNext(config, w);
      if |Archived(d).completed| >= TricksPerDeal(config) {
        FinishIs(s, Archived(d));
        DealOver(Archived(d), config);
      }
    }
  }

  lemma FormedNext(config: Config, leader: nat)
    requires ConfigFormed(config) && 1 <= leader <= config.count
    ensures TrickFormed(Trick(config.count, leader, []))
  {
  }

  lemma LegalIfPlayed(s: Match, deal: Deal, id: nat, card: Card)
    requires ConfigFormed(s.config) && 1 <= id <= |deal.players| && ApplyPlay(s, deal, id, card).Accepted?
    ensures deal.currentTrick.Some? && deal.currentTrick.value.count > 0 && deal.currentTrick.value.leader > 0
    ensures ValidatePlay(deal.players[id - 1].hand, deal.currentTrick.value, id, card) == Ok
  {
    hide ValidatePlay, FinishDeal, Winner, Archived, Resumed, TrickFormed, Played;
  }

  lemma FinishIs(s: Match, a: Deal)
    requires FinishDeal(s, a).Accepted?
    ensures var t := FinishDeal(s, a).next;
            (t.phase == DealComplete || t.phase == MatchComplete) && |t.completed| == |s.completed| + 1
  {
    hide AllBid, ScoreDeal;
  }

  lemma DealOver(a: Deal, config: Config)
    requires ConfigFormed(config) && TricksFormed(Tricks(a)) && DealAudit(a, config)
    requires a.currentTrick.None? && |a.completed| == TricksPerDeal(config)
    ensures Moves(a) == config.count * TricksPerDeal(config)
  {
    hide HandsOk, BidsOk, ReplayTricks, TrickFormed, Complete, Opening;
    assert Tricks(a) == a.completed;
    PlaysOfComplete(a.completed, config.count);
  }

  lemma MovesBound(deal: Deal, config: Config)
    requires ConfigFormed(config) && TricksFormed(Tricks(deal)) && DealAudit(deal, config) && deal.currentTrick.Some?
    ensures Moves(deal) < config.count * TricksPerDeal(config) <= 52
  {
    var n, each, t := config.count, TricksPerDeal(config), deal.currentTrick.value;
    CurrentFormed(deal, config);
    OpenTrick(deal, config);
    SplitTricks(deal.completed, t, n);
    TricksOf(deal, t);
    DealtCards(config);
    hide AllPlays, DealAudit, TricksFormed, TrickFormed, SameTable, TricksPerDeal, ConfigFormed;
    PlaysOfComplete(deal.completed, n);
    RowFits(|deal.completed|, each, n);
  }

  lemma DealtCards(config: Config)
    requires ConfigFormed(config)
    ensures config.count * TricksPerDeal(config) == if config.count == 4 then 52 else 50
  {
  }

  lemma OpenTrick(deal: Deal, config: Config)
    requires ConfigFormed(config) && TricksFormed(Tricks(deal)) && DealAudit(deal, config) && deal.currentTrick.Some?
    requires TrickFormed(deal.currentTrick.value)
    ensures |deal.currentTrick.value.plays| < deal.currentTrick.value.count
  {
    hide HandsOk, BidsOk, ReplayTricks, Opening;
  }

  // ---- distance to the end

  function Stage(s: Match): int {
    match s.phase
    case AwaitingShuffle => 199
    case Shuffling => 198
    case AwaitingCut => 197
    case AwaitingDistribution => 196
    case HandReview => if s.currentDeal.Some? then 180 - |s.currentDeal.value.accepted| else 0
    case AwaitingRedeal => 0
    case Bidding => if s.currentDeal.Some? then 170 - BidCount(s.currentDeal.value.players) else 0
    case Playing => if s.currentDeal.Some? then 160 - Moves(s.currentDeal.value) else 0
    case _ => 200
  }

  function Distance(s: Match): int {
    200 * (DEALS - 1 - |s.completed|) + Stage(s)
  }

  lemma ReviewMoves(s: Match, deal: Deal, id: nat, action: Action)
    requires ConfigFormed(s.config) && 1 <= id <= |deal.players| && AcceptedOk(deal.accepted, s.config.count)
             && id <= s.config.count
    requires s.phase == HandReview && s.currentDeal == Some(deal) && NoBids(deal.players)
    requires ApplyReview(s, deal, id, action).Accepted?
    ensures Distance(ApplyReview(s, deal, id, action).next) < Distance(s)
  {
    hide RedealAllowed, Moves;
    InsertIdKeeps(deal.accepted, id, s.config.count);
    NoBidsCount(deal.players);
    AcceptedFew(deal.accepted, s.config.count);
  }

  // The stage of a match in play, and its bounds.
  lemma StageBounds(s: Match)
    requires Inv(s)
    ensures 0 <= Stage(s) <= 200 && Distance(s) >= 0
    ensures s.phase == HandReview || s.phase == Bidding || s.phase == Playing ==> 108 < Stage(s) <= 180
  {
    InvBasics(s);
    if s.phase == HandReview {
      AuditedFacts(s.currentDeal.value, s.config);
      AcceptedFew(s.currentDeal.value.accepted, s.config.count);
    } else if s.phase == Bidding {
      BidsFew(s.currentDeal.value.players);
    } else if s.phase == Playing {
      PlayingDeal(s);
      MovesBound(s.currentDeal.value, s.config);
    }
    hide Moves, BidCount, ArchiveOk, CurrentOk, AbandonedOk, Settled, TricksFormed, PreparationOk;
  }

  lemma {:induction false} BidsFew(players: seq<PlayerDeal>)
    ensures BidCount(players) <= |players|
  {
    if players != [] { BidsFew(players[..|players| - 1]); }
  }

  // Between redeals every accepted command brings the match nearer its end.
  lemma StepApproaches(s: Match, e: Entry)
    requires Inv(s) && ConfigFormed(s.config) && s.initialDealer > 0
    requires Step(s, e).Accepted? && s.phase != AwaitingRedeal
    ensures 0 <= Distance(Step(s, e).next) < Distance(s)
  {
    StepKeeps(s, e);
    StageBounds(s);
    StageBounds(Step(s, e).next);
    match e
    case FromController(command) => ControlApproaches(s, command);
    case FromPlayer(actor, action) => PlayerApproaches(s, actor, action);
  }

  lemma ControlApproaches(s: Match, command: Control)
    requires Inv(s) && ConfigFormed(s.config) && s.initialDealer > 0
    requires ApplyControl(s, command).Accepted? && s.phase != AwaitingRedeal
    ensures Distance(ApplyControl(s, command).next) < Distance(s)
  {
    hide Inv, DealAudit, FullDeck, NewDeal, Moves, BidCount;
    match command
    case PrepareDeal =>
    case CompleteShuffle(deck) =>
    case StartDeal(deck) =>
    case Redeal(deck) =>
  }

  lemma PlayerApproaches(s: Match, id: nat, action: Action)
    requires Inv(s) && ConfigFormed(s.config) && ApplyPlayer(s, id, action).Accepted?
    ensures Distance(ApplyPlayer(s, id, action).next) < Distance(s)
  {
    hide Inv, ApplyPreparation, ApplyReview, ApplyBid, ApplyPlay, Distribute, CurrentOf, Moves, BidCount, Cut,
      ReplayTricks, HandsOk, Tricks;
    PlayerKeeps(s, id, action);
    StageBounds(s);
    StageBounds(ApplyPlayer(s, id, action).next);
    InvBasics(s);
    if action.StartDistribution? {
      DistributeStage(s, s.preparation.value.deck, s.preparation.value.number, s.preparation.value.attempt,
          s.preparation.value.dealer);
    } else if action.ShuffleDeck? || action.CutDeck? || action.SkipCut? {
      PreparationApproaches(s, id, action);
    } else if action.PlaceBid? {
      BidMoves(s, id, action.amount);
    } else if action.PlayCard? {
      PlayMoves(s, id, action.card);
    } else {
      ReviewFacts(s);
      ReviewMoves(s, s.currentDeal.value, id, action);
    }
  }

  lemma PreparationApproaches(s: Match, id: nat, action: Action)
    requires ConfigFormed(s.config) && (action.ShuffleDeck? || action.CutDeck? || action.SkipCut?)
    requires ApplyPreparation(s, id, action).Accepted?
    ensures Distance(ApplyPreparation(s, id, action).next) < Distance(s)
  {
    hide CurrentOf, Cut, Moves, BidCount;
  }

  lemma DistributeStage(s: Match, deck: seq<Card>, number: nat, attempt: nat, dealer: nat)
    requires ConfigFormed(s.config) && Distribute(s, deck, number, attempt, dealer, []).Accepted?
    ensures var t := Distribute(s, deck, number, attempt, dealer, []).next;
            (t.phase == HandReview || t.phase == Bidding) && t.completed == s.completed
  {
    hide DealAudit, NewDeal;
  }

  lemma ReviewFacts(s: Match)
    requires Inv(s) && s.phase == HandReview
    ensures s.currentDeal.Some? && AcceptedOk(s.currentDeal.value.accepted, s.config.count)
            && NoBids(s.currentDeal.value.players)
  {
    InvBasics(s);
    AuditedFacts(s.currentDeal.value, s.config);
    hide DealAudit, AcceptedOk, Settled, TricksFormed, ArchiveOk;
  }

  // ---- the exact length of a match without redeals

  predicate Direct(phase: Phase) {
    phase == AwaitingDeal || phase == Bidding || phase == Playing || phase == DealComplete || phase == MatchComplete
  }

  function DealLength(config: Config): nat
    requires config.count > 0
  {
    1 + config.count + config.count * TricksPerDeal(config)
  }

  // Commands accepted so far, read off the state.
  function Travelled(s: Match): nat
    requires s.config.count > 0
  {
    |s.completed| * DealLength(s.config) +
    if s.phase == Bidding && s.currentDeal.Some? then 1 + BidCount(s.currentDeal.value.players)
    else if s.phase == Playing && s.currentDeal.Some? then 1 + s.config.count + Moves(s.currentDeal.value)
    else 0
  }

  lemma NextTravelled(s: Match, t: Match)
    requires t.config == s.config && s.config.count > 0 && |t.completed| == |s.completed| + 1
    requires !(t.phase == Bidding || t.phase == Playing)
    requires s.phase == Playing && s.currentDeal.Some?
    requires Moves(s.currentDeal.value) + 1 == s.config.count * TricksPerDeal(s.config)
    ensures Travelled(t) == Travelled(s) + 1
  {
    hide Moves, TricksPerDeal;
    var l := DealLength(s.config);
    assert (|s.completed| + 1) * l == |s.completed| * l + l;
  }

  lemma PlayerTravels(s: Match, id: nat, action: Action)
    requires Inv(s) && ConfigFormed(s.config) && Direct(s.phase) && ApplyPlayer(s, id, action).Accepted?
    ensures var t := ApplyPlayer(s, id, action).next; t.config == s.config && Direct(t.phase) && Travelled(t) == Travelled(s) + 1
  {
    StepFrame(s, FromPlayer(id, action));
    InvBasics(s);
    hide Inv, ApplyBid, ApplyPlay, Distribute, CurrentOf, Moves, BidCount, DealLength;
    if action.PlaceBid? {
      BidMoves(s, id, action.amount);
    } else {
      PlayMoves(s, id, action.card);
      var t := ApplyPlayer(s, id, action).next;
      if t.phase != Playing { NextTravelled(s, t); }
    }
  }

  lemma StartTravels(s: Match, deck: seq<Card>)
    requires Inv(s) && ConfigFormed(s.config) && s.initialDealer > 0 && Direct(s.phase)
             && !RedealEnabled(s.config.policy)
    requires ApplyControl(s, StartDeal(deck)).Accepted?
    ensures var t := ApplyControl(s, StartDeal(deck)).next;
            t.config == s.config && Direct(t.phase) && Travelled(t) == Travelled(s) + 1
  {
    StepFrame(s, FromController(StartDeal(deck)));
    BoundaryFacts(s);
    hide Inv, DealAudit, FullDeck, NewDeal, Moves, Advance, Unplayed, Settled, TricksFormed, DealLength, RedealEnabled;
    var number := |s.completed| + 1;
    var dealer := NextDealer(s, number);
    NewDealOk(deck, s.config, number, 1, dealer);
    DistributeShape(s, deck, number, 1, dealer, []);
    UnplayedCount(NewDeal(deck, s.config, number, 1, dealer));
  }

  lemma BoundaryFacts(s: Match)
    requires Inv(s)
    ensures s.phase == AwaitingDeal || s.phase == DealComplete ==> |s.completed| < DEALS
    ensures |s.completed| <= DEALS && (s.phase == MatchComplete <==> |s.completed| == DEALS)
  {
    hide ArchiveOk, CurrentOk, AbandonedOk, Settled, TricksFormed, PreparationOk;
  }

  lemma UnplayedCount(deal: Deal)
    requires Unplayed(deal)
    ensures BidCount(deal.players) == 0
  {
    NoBidsCount(deal.players);
  }

  // A run that deals directly and cannot redeal has a length one can read off
  // its state: one deal, n bids and n cards a trick for every deal.
  lemma {:induction false} RunLength(config: Config, initialDealer: nat, entries: seq<Entry>)
    requires ConfigFormed(config) && 1 <= initialDealer <= config.count && !RedealEnabled(config.policy)
    requires forall i :: 0 <= i < |entries| ==> entries[i] != FromController(PrepareDeal)
    requires Restored(config, initialDealer, entries).Accepted?
    ensures var s := Restored(config, initialDealer, entries).next; Direct(s.phase) && Travelled(s) == |entries|
  {
    hide Step, Inv, RedealEnabled, DealLength;
    if entries != [] {
      var init, last := entries[..|entries| - 1], entries[|entries| - 1];
      var s := Restored(config, initialDealer, init).next;
      RunLength(config, initialDealer, init);
      RunAudited(config, initialDealer, init);
      DirectStep(s, last);
    }
  }

  lemma DirectStep(s: Match, e: Entry)
    requires Inv(s) && ConfigFormed(s.config) && s.initialDealer > 0 && Direct(s.phase)
             && !RedealEnabled(s.config.policy)
    requires e != FromController(PrepareDeal) && Step(s, e).Accepted?
    ensures var t := Step(s, e).next; t.config == s.config && Direct(t.phase) && Travelled(t) == Travelled(s) + 1
  {
    hide Inv, ApplyPlayer, Distribute, Travelled, FullDeck, Tricks, NextDealer;
    match e
    case FromController(command) =>
      if command.StartDeal? { StartTravels(s, command.deck); }
    case FromPlayer(actor, action) => PlayerTravels(s, actor, action);
  }

  // The documented totals: 285 commands for four players, 280 for five.
  lemma MatchLength(config: Config, initialDealer: nat, entries: seq<Entry>)
    requires ConfigFormed(config) && 1 <= initialDealer <= config.count && !RedealEnabled(config.policy)
    requires forall i :: 0 <= i < |entries| ==> entries[i] != FromController(PrepareDeal)
    requires Restored(config, initialDealer, entries).Accepted?
    ensures var s := Restored(config, initialDealer, entries).next;
            && s.revision == |entries| <= (if config.count == 4 then 285 else 280)
            && (s.phase == MatchComplete <==> s.revision == if config.count == 4 then 285 else 280)
  {
    var s := Restored(config, initialDealer, entries).next;
    RunLength(config, initialDealer, entries);
    RunAudited(config, initialDealer, entries);
    BoundaryFacts(s);
    DealtCards(config);
    hide Restored, Inv;
    if s.phase == Bidding {
      BiddingFacts(s);
    } else if s.phase == Playing {
      PlayingFacts(s);
    }
    LengthBound(|s.completed|, DealLength(config));
  }

  lemma LengthBound(done: nat, l: nat)
    requires done <= DEALS
    ensures done < DEALS ==> done * l + l <= DEALS * l
    ensures done * l <= DEALS * l
  {
    assert DEALS * l == done * l + (DEALS - done) * l;
    assert done < DEALS ==> (DEALS - done) * l == l + (DEALS - done - 1) * l;
  }

  lemma BiddingFacts(s: Match)
    requires Inv(s) && s.phase == Bidding
    ensures s.currentDeal.Some? && BidCount(s.currentDeal.value.players) <= s.config.count && |s.completed| < DEALS
  {
    InvBasics(s);
    BidsFew(s.currentDeal.value.players);
    hide ArchiveOk, CurrentOk, AbandonedOk, Settled, TricksFormed, PreparationOk;
  }

  lemma PlayingFacts(s: Match)
    requires Inv(s) && s.phase == Playing && ConfigFormed(s.config)
    ensures s.currentDeal.Some? && Moves(s.currentDeal.value) < s.config.count * TricksPerDeal(s.config)
            && |s.completed| < DEALS
  {
    InvBasics(s);
    PlayingDeal(s);
    MovesBound(s.currentDeal.value, s.config);
    hide ArchiveOk, CurrentOk, AbandonedOk, Settled, TricksFormed, PreparationOk, Moves;
  }
}
