// What an audited Call Break deal has gone through.
module CallBreakHistory {
  import opened Prelude
  import opened Cards
  import opened Dealing
  import opened CallBreakRules
  import opened CallBreakDeals
  import opened CallBreakMatch
  import opened CallBreakInvariant
  import opened CallBreakPlay
  import opened CallBreakMeaning

  // The cards a player put into these plays.
  function PlayedBy(plays: seq<Play>, id: nat): set<Card> {
    set i | 0 <= i < |plays| && plays[i].player == id :: plays[i].card
  }

  function PlayedIn(tricks: seq<Trick>, id: nat): set<Card> {
    set j, c | 0 <= j < |tricks| && c in PlayedBy(tricks[j].plays, id) :: c
  }

  lemma PlayedNext(plays: seq<Play>, play: Play, id: nat)
    ensures PlayedBy(plays + [play], id) == PlayedBy(plays, id) + if play.player == id then {play.card} else {}
  {
    var all := plays + [play];
    forall c ensures c in PlayedBy(all, id) <==> c in PlayedBy(plays, id) || (play.player == id && c == play.card) {
      if c in PlayedBy(plays, id) {
        var i :| 0 <= i < |plays| && plays[i].player == id && plays[i].card == c;
        assert all[i].card == c && all[i].player == id;
      }
      if play.player == id && c == play.card { assert all[|plays|].card == c && all[|plays|].player == id; }
    }
  }

  lemma PlayedInNext(tricks: seq<Trick>, t: Trick, id: nat)
    ensures PlayedIn(tricks + [t], id) == PlayedIn(tricks, id) + PlayedBy(t.plays, id)
  {
    hide PlayedBy;
    var all := tricks + [t];
    forall c ensures c in PlayedIn(all, id) <==> c in PlayedIn(tricks, id) || c in PlayedBy(t.plays, id) {
      if c in PlayedIn(tricks, id) {
        var j :| 0 <= j < |tricks| && c in PlayedBy(tricks[j].plays, id);
        assert c in PlayedBy(all[j].plays, id);
      }
      if c in PlayedBy(t.plays, id) { assert c in PlayedBy(all[|tricks|].plays, id); }
    }
  }

  // ---- replayed hands

  // What a replay leaves of a hand: the cards that were not played.
  lemma {:induction false} PlaysLeave(hands: seq<set<Card>>, leader: nat, plays: seq<Play>, q: nat)
    requires |hands| > 0 && leader > 0 && Seated(plays, |hands|) && q < |hands|
    requires ReplayPlays(hands, leader, plays).Some?
    ensures ReplayPlays(hands, leader, plays).value[q] == hands[q] - PlayedBy(plays, q + 1)
  {
    hide PlayAllowed, PlayedBy;
    if plays == [] {
      PlayedNothing(q + 1);
    } else {
      var init, last := plays[..|plays| - 1], plays[|plays| - 1];
      PlaysLeave(hands, leader, init, q);
      assert plays == init + [last];
      PlayedNext(init, last, q + 1);
    }
  }

  lemma PlayedNothing(id: nat)
    ensures PlayedBy([], id) == {} && PlayedIn([], id) == {}
  {
  }

  lemma {:induction false} TricksLeave(start: Table, tricks: seq<Trick>, q: nat)
    requires |start.hands| > 0 && TricksFormed(tricks) && SameTable(tricks, |start.hands|) && q < |start.hands|
    requires ReplayTricks(start, tricks).Some?
    ensures ReplayTricks(start, tricks).value.hands[q] == start.hands[q] - PlayedIn(tricks, q + 1)
  {
    hide PlayedIn, PlayedBy, TrickFormed, ReplayPlays, Winner;
    if tricks == [] {
      PlayedNothing(q + 1);
    } else {
      var init, last := tricks[..|tricks| - 1], tricks[|tricks| - 1];
      TricksLeave(start, init, q);
      assert tricks == init + [last];
      PlayedInNext(init, last, q + 1);
      FormedSeated(last);
      PlaysLeave(ReplayTricks(start, init).value.hands, last.leader, last.plays, q);
    }
  }

  // ---- every play of an audited deal

  // The cards a player held before the i-th card of the j-th trick: all that the
  // player still holds or has played, less those played earlier.
  function HeldBefore(deal: Deal, j: nat, i: nat, id: nat): set<Card>
    requires 1 <= id <= |deal.players| && j < |Tricks(deal)| && i <= |Tricks(deal)[j].plays|
  {
    Elems(deal.players[id - 1].hand) + PlayedIn(Tricks(deal), id)
    - PlayedIn(Tricks(deal)[..j], id) - PlayedBy(Tricks(deal)[j].plays[..i], id)
  }

  // A replay goes through every trick.
  lemma ReplayedTrick(start: Table, tricks: seq<Trick>, j: nat)
    requires |start.hands| > 0 && TricksFormed(tricks) && SameTable(tricks, |start.hands|) && j < |tricks|
    requires ReplayTricks(start, tricks).Some?
    ensures TricksFormed(tricks[..j]) && SameTable(tricks[..j], |start.hands|) && ReplayTricks(start, tricks[..j]).Some?
    ensures ReplayTrick(ReplayTricks(start, tricks[..j]).value, tricks[j]).Some?
    ensures TricksFormed(tricks[..j + 1]) && SameTable(tricks[..j + 1], |start.hands|)
    ensures ReplayTricks(start, tricks[..j + 1]) == ReplayTrick(ReplayTricks(start, tricks[..j]).value, tricks[j])
  {
    hide ReplayTrick, TrickFormed;
    ReplayPrefix(start, tricks, j + 1);
    assert tricks[..j + 1][..j] == tricks[..j] && tricks[..j + 1][j] == tricks[j];
  }

  // And through every play of it.
  lemma ReplayedPlay(table: Table, t: Trick, i: nat)
    requires |table.hands| > 0 && TrickFormed(t) && t.count == |table.hands| && i < |t.plays|
    requires ReplayTrick(table, t).Some?
    ensures t.leader == table.leader && t.leader > 0 && Seated(t.plays[..i], |table.hands|)
    ensures 1 <= t.plays[i].player <= |table.hands|
    ensures ReplayPlays(table.hands, t.leader, t.plays[..i]).Some?
    ensures var q := t.plays[i].player - 1;
            var hand := table.hands[q] - PlayedBy(t.plays[..i], q + 1);
            && ReplayPlays(table.hands, t.leader, t.plays[..i]).value[q] == hand
            && PlayAllowed(hand, Trick(t.count, t.leader, t.plays[..i]), q + 1, t.plays[i].card)
  {
    hide PlayAllowed, PlayedBy, Winner;
    FormedSeated(t);
    PlaysPrefix(table.hands, t.leader, t.plays, i + 1);
    assert t.plays[..i + 1][..i] == t.plays[..i] && t.plays[..i + 1][i] == t.plays[i];
    PlaysPrefix(table.hands, t.leader, t.plays[..i + 1], i);
    hide TrickFormed;
    PlaysLeave(table.hands, t.leader, t.plays[..i], t.plays[i].player - 1);
  }

  // Every card was played in turn and was one the rules allowed then.
  lemma EveryPlayWasLegal(deal: Deal, config: Config, j: nat, i: nat)
    requires ConfigFormed(config) && TricksFormed(Tricks(deal)) && DealAudit(deal, config)
    requires j < |Tricks(deal)| && i < |Tricks(deal)[j].plays|
    ensures var t := Tricks(deal)[j];
            && t.leader > 0 && |deal.players| == t.count == config.count
            && t.plays[i].player == Turn(t.count, t.leader, i)
            && MayPlay(HeldBefore(deal, j, i, t.plays[i].player), t.plays[..i], t.plays[i].card)
  {
    DealTricks(deal, config);
    hide DealAudit, PlayAllowed, PlayedIn, PlayedBy, MayPlay, Legal, Winner, Opening, BidsOk, HandsOk, ReplayTrick,
      ReplayTricks, TricksFormed, SameTable, TrickFormed, Tricks, ReplayPlays;
    var tricks := Tricks(deal);
    var t, start := tricks[j], Opening(deal);
    TrickAt(tricks, config.count, j);
    ReplayedTrick(start, tricks, j);
    var before := ReplayTricks(start, tricks[..j]).value;
    ReplayedPlay(before, t, i);
    var q := t.plays[i].player - 1;
    TricksLeave(start, tricks[..j], q);
    OpeningHand(deal, q);
    var hand := before.hands[q] - PlayedBy(t.plays[..i], q + 1);
    assert hand == HeldBefore(deal, j, i, q + 1);
    AllowedIsLegal(hand, Trick(t.count, t.leader, t.plays[..i]), q + 1, t.plays[i].card);
    DistinctPlays(t, i);
    LegalMeans(hand, t.plays[..i], t.plays[i].card);
  }

  lemma TrickAt(tricks: seq<Trick>, n: nat, j: nat)
    requires TricksFormed(tricks) && SameTable(tricks, n) && j < |tricks|
    ensures TrickFormed(tricks[j]) && tricks[j].count == n
  {
  }

  lemma AllowedIsLegal(hand: set<Card>, t: Trick, player: nat, card: Card)
    requires t.count > 0 && t.leader > 0 && PlayAllowed(hand, t, player, card)
    ensures card in Legal(hand, t.plays) && player == Turn(t.count, t.leader, |t.plays|)
  {
  }

  lemma DistinctPlays(t: Trick, i: nat)
    requires TrickFormed(t) && i <= |t.plays|
    ensures NoDup(PlayedCards(t.plays[..i]))
  {
    var cards := PlayedCards(t.plays[..i]);
    forall a, b | 0 <= a < b < |cards| ensures cards[a] != cards[b] {
      assert PlayedCards(t.plays)[a] != PlayedCards(t.plays)[b];
    }
  }

  lemma DealTricks(deal: Deal, config: Config)
    requires ConfigFormed(config) && TricksFormed(Tricks(deal)) && DealAudit(deal, config)
    ensures |deal.players| == config.count && 1 <= deal.dealer <= config.count
    ensures SameTable(Tricks(deal), config.count) && ReplayTricks(Opening(deal), Tricks(deal)).Some?
    ensures forall j :: 0 <= j < |deal.completed| ==> Complete(deal.completed[j])
  {
    hide ReplayTricks, HandsOk, BidsOk, Opening, TricksFormed;
  }

  // The rebuilt hand of a seat: what is held and what was played.
  lemma OpeningHand(deal: Deal, q: nat)
    requires q < |deal.players| && deal.dealer > 0
    ensures Opening(deal).hands[q] == Elems(deal.players[q].hand) + PlayedIn(Tricks(deal), q + 1)
  {
    hide PlayedIn, CardsBy, AllPlays;
    RebuiltCards(Tricks(deal), q + 1);
    ElemsConcat(deal.players[q].hand, CardsBy(AllPlays(Tricks(deal)), q + 1));
  }

  lemma {:induction false} RebuiltCards(tricks: seq<Trick>, id: nat)
    ensures Elems(CardsBy(AllPlays(tricks), id)) == PlayedIn(tricks, id)
  {
    hide PlayedIn, PlayedBy, CardsBy;
    if tricks == [] {
      PlayedNothing(id);
      NothingBy(id);
    } else {
      var init, last := tricks[..|tricks| - 1], tricks[|tricks| - 1];
      RebuiltCards(init, id);
      assert tricks == init + [last];
      PlayedInNext(init, last, id);
      CardsByConcat(AllPlays(init), last.plays, id);
      ElemsConcat(CardsBy(AllPlays(init), id), CardsBy(last.plays, id));
      CardsByAre(last.plays, id);
    }
  }

  lemma NothingBy(id: nat)
    ensures CardsBy([], id) == []
  {
  }

  lemma {:induction false} CardsByAre(plays: seq<Play>, id: nat)
    ensures Elems(CardsBy(plays, id)) == PlayedBy(plays, id)
  {
    hide PlayedBy;
    if plays == [] {
      PlayedNothing(id);
    } else {
      var init, last := plays[..|plays| - 1], plays[|plays| - 1];
      CardsByAre(init, id);
      assert plays == init + [last];
      PlayedNext(init, last, id);
      ElemsConcat(CardsBy(init, id), if last.player == id then [last.card] else []);
    }
  }

  // ---- who led each trick

  // The player on the dealer's left leads, and then whoever won the last trick.
  lemma EveryLeaderWasRight(deal: Deal, config: Config, j: nat)
    requires ConfigFormed(config) && TricksFormed(Tricks(deal)) && DealAudit(deal, config) && j < |Tricks(deal)|
    ensures j == 0 ==> Tricks(deal)[0].leader == Left(deal.dealer, config.count)
    ensures j > 0 ==>
              var won := Tricks(deal)[j - 1].plays;
              won != [] && |won| == config.count && Tricks(deal)[j].leader == won[WinnerIndex(won)].player
  {
    hide DealAudit, WinnerIndex, TrickFormed, HandsOk, BidsOk, ReplayTricks, ReplayTrick, SameTable,
      TricksFormed, Advance;
    DealTricks(deal, config);
    LeftSteps(deal.dealer, config.count);
    var tricks, start := Tricks(deal), Opening(deal);
    if j > 0 {
      assert tricks[j - 1] == deal.completed[j - 1];
      LedByWinner(start, tricks, j);
    } else {
      FirstLeader(start, tricks);
    }
  }

  lemma LedByWinner(start: Table, tricks: seq<Trick>, j: nat)
    requires |start.hands| > 0 && TricksFormed(tricks) && SameTable(tricks, |start.hands|) && 0 < j < |tricks|
    requires ReplayTricks(start, tricks).Some? && Complete(tricks[j - 1])
    ensures tricks[j - 1].plays != [] && |tricks[j - 1].plays| == |start.hands|
    ensures tricks[j].leader == Winner(tricks[j - 1])
  {
    hide TrickFormed, ReplayTricks, SameTable, TricksFormed, ReplayTrick, Winner;
    TrickAt(tricks, |start.hands|, j);
    TrickAt(tricks, |start.hands|, j - 1);
    ReplayedTrick(start, tricks, j);
    ReplayedTrick(start, tricks, j - 1);
    TrickLeads(ReplayTricks(start, tricks[..j]).value, tricks[j]);
    TrickLeads(ReplayTricks(start, tricks[..j - 1]).value, tricks[j - 1]);
  }

  lemma TrickLeads(table: Table, t: Trick)
    requires |table.hands| > 0 && TrickFormed(t) && t.count == |table.hands| && ReplayTrick(table, t).Some?
    ensures t.leader == table.leader
    ensures Complete(t) ==> t.plays != [] && ReplayTrick(table, t).value.leader == Winner(t)
  {
    hide ReplayPlays, Winner, NoDup;
  }

  lemma FirstLeader(start: Table, tricks: seq<Trick>)
    requires |start.hands| > 0 && TricksFormed(tricks) && SameTable(tricks, |start.hands|) && tricks != []
    requires ReplayTricks(start, tricks).Some?
    ensures tricks[0].leader == start.leader
  {
    hide TrickFormed, ReplayTrick, ReplayTricks, SameTable, TricksFormed;
    TrickAt(tricks, |start.hands|, 0);
    ReplayedTrick(start, tricks, 0);
    NoTricksYet(start, tricks);
    TrickLeads(start, tricks[0]);
  }

  lemma NoTricksYet(start: Table, tricks: seq<Trick>)
    requires |start.hands| > 0 && TricksFormed(tricks[..0]) && SameTable(tricks[..0], |start.hands|)
    ensures ReplayTricks(start, tricks[..0]) == Some(start)
  {
  }

  // ---- cards and bids

  // Every card of the deck is in one place: not dealt, held, or played, and once.
  lemma EveryCardOnce(deal: Deal, config: Config, c: Card)
    requires ConfigFormed(config) && TricksFormed(Tricks(deal)) && DealAudit(deal, config)
    ensures multiset(deal.undealt + Flat(Rebuilt(deal.players, Tricks(deal))))[c] == 1
    ensures |deal.undealt| == 52 - config.count * TricksPerDeal(config)
    ensures forall q :: 0 <= q < |deal.players| ==> |Rebuilt(deal.players, Tricks(deal))[q]| == TricksPerDeal(config)
  {
    hide ReplayTricks, BidsOk, Flat, Rebuilt, Standard52, TricksFormed, TricksOk;
    var all := deal.undealt + Flat(Rebuilt(deal.players, Tricks(deal)));
    FullDeckIsDistinct(all);
    NoDupCounts(all);
    Standard52Is();
    assert c in Elems(all);
    assert c in all;
  }

  // The seat p bids after the seat q.
  predicate Later(deal: Deal, p: nat, q: nat)
    requires p < |deal.players| && q < |deal.players| && 1 <= deal.dealer <= |deal.players|
  {
    HandIndex(deal.dealer, |deal.players|, p + 1) > HandIndex(deal.dealer, |deal.players|, q + 1)
  }

  // Bids lie between one and the number of tricks, were placed from the dealer's
  // left, and were all in before the first card.
  lemma EveryBidInTurn(deal: Deal, config: Config, q: nat)
    requires ConfigFormed(config) && TricksFormed(Tricks(deal)) && DealAudit(deal, config) && q < |deal.players|
    ensures deal.players[q].id == q + 1
    ensures match deal.players[q].bid
            case Some(bid) => 1 <= bid <= TricksPerDeal(config)
            case None => Tricks(deal) == []
    ensures 1 <= deal.dealer <= config.count == |deal.players|
    ensures deal.players[q].bid.None? ==>
              forall p :: 0 <= p < |deal.players| && Later(deal, p, q) ==> deal.players[p].bid.None?
  {
    hide ReplayTricks, HandsOk, TricksOk, TricksFormed, Advance, HandIndex, EachOf;
    var n := config.count;
    forall p: nat | p < n
      ensures var i := HandIndex(deal.dealer, n, p + 1);
              i < n && BidAt(deal, i) == deal.players[p].bid
    {
      PlaceOfSeat(deal, n, p);
    }
    var i := HandIndex(deal.dealer, n, q + 1);
    forall p | 0 <= p < n && Later(deal, p, q) && deal.players[q].bid.None?
      ensures deal.players[p].bid.None?
    {
      assert BidAt(deal, HandIndex(deal.dealer, n, p + 1)) == deal.players[p].bid;
    }
  }
}
