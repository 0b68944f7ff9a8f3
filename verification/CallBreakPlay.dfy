// Playing cards keeps the invariant: a trick goes on, a trick is won, a deal
// is scored. Scoring never raises and no hand outlives its deal. Each of the
// three cases has its lemmas about the deal first, then the match around it.
module CallBreakPlay {
  import opened Prelude
  import opened Cards
  import opened Dealing
  import opened CallBreakRules
  import opened CallBreakDeals
  import opened CallBreakMatch
  import opened CallBreakInvariant

  // ---- every complete trick takes one card from everyone

  function Position(n: nat, leader: nat, id: nat): (i: nat)
    requires 1 <= leader <= n && 1 <= id <= n
    ensures i < n
  {
    if id >= leader then id - leader else id - leader + n
  }

  lemma TurnOf(n: nat, leader: nat, id: nat, i: nat)
    requires 1 <= leader <= n && 1 <= id <= n && i < n
    ensures Turn(n, leader, i) == id <==> i == Position(n, leader, id)
  {
  }

  lemma {:induction false} CardsOfPrefix(t: Trick, id: nat, k: nat)
    requires TrickFormed(t) && 1 <= id <= t.count && k <= |t.plays|
    ensures |CardsBy(t.plays[..k], id)| == if Position(t.count, t.leader, id) < k then 1 else 0
  {
    hide Position, Turn;
    if k > 0 {
      CardsOfPrefix(t, id, k - 1);
      assert t.plays[..k] == t.plays[..k - 1] + [t.plays[k - 1]];
      CardsByNext(t.plays[..k - 1], t.plays[k - 1], id);
      TurnOf(t.count, t.leader, id, k - 1);
    }
  }

  lemma {:induction false} CardsByConcat(a: seq<Play>, b: seq<Play>, id: nat)
    ensures CardsBy(a + b, id) == CardsBy(a, id) + CardsBy(b, id)
  {
    if b == [] {
      assert a + b == a;
    } else {
      var init, last := b[..|b| - 1], b[|b| - 1];
      assert a + b == (a + init) + [last];
      assert b == init + [last];
      CardsByConcat(a, init, id);
      CardsByNext(a + init, last, id);
      CardsByNext(init, last, id);
    }
  }

  lemma {:induction false} OneCardATrick(tricks: seq<Trick>, n: nat, id: nat)
    requires TricksFormed(tricks) && SameTable(tricks, n) && 1 <= id <= n
    requires forall i :: 0 <= i < |tricks| ==> Complete(tricks[i])
    ensures |CardsBy(AllPlays(tricks), id)| == |tricks|
  {
    hide TrickFormed, CardsBy;
    if tricks == [] {
      NothingPlayedBy(id);
    } else {
      var init, last := tricks[..|tricks| - 1], tricks[|tricks| - 1];
      OneCardATrick(init, n, id);
      CardsByConcat(AllPlays(init), last.plays, id);
      CardsOfPrefix(last, id, |last.plays|);
      assert last.plays[..|last.plays|] == last.plays;
    }
  }

  lemma NothingPlayedBy(id: nat)
    ensures CardsBy([], id) == []
  {
  }

  // A deal with all its tricks complete has no cards left in hand.
  lemma HandsRunOut(deal: Deal, n: nat, each: nat)
    requires n > 0 && HandsOk(deal, n, each) && |deal.players| == n && deal.currentTrick.None?
    requires TricksFormed(deal.completed) && SameTable(deal.completed, n) && |deal.completed| == each
    requires forall i :: 0 <= i < |deal.completed| ==> Complete(deal.completed[i])
    ensures NoHandsLeft(deal.players)
  {
    hide CardsBy, AllPlays, FullDeck, TricksFormed, SameTable, Complete;
    assert Tricks(deal) == deal.completed;
    forall q | 0 <= q < n ensures deal.players[q].hand == [] {
      OneCardATrick(deal.completed, n, q + 1);
      assert |Rebuilt(deal.players, Tricks(deal))[q]| == each;
    }
  }

  // ---- tricks won add up

  function WonCounts(tricks: seq<Trick>, n: nat): (r: seq<nat>)
    ensures |r| == n && forall i :: 0 <= i < n ==> r[i] == TricksWonBy(tricks, i + 1)
  {
    seq(n, i requires 0 <= i < n => TricksWonBy(tricks, i + 1))
  }

  lemma {:induction false} TotalBump(values: seq<nat>, k: nat)
    requires k < |values|
    ensures Total(values[k := values[k] + 1]) == Total(values) + 1
  {
    var after := values[k := values[k] + 1];
    if k == |values| - 1 {
      assert after[..|after| - 1] == values[..|values| - 1];
    } else {
      assert after[..|after| - 1] == values[..|values| - 1][k := values[k] + 1];
      TotalBump(values[..|values| - 1], k);
    }
  }

  lemma {:induction false} TotalZero(n: nat)
    ensures Total(seq(n, i => 0)) == 0
  {
    if n > 0 {
      assert seq(n, i => 0)[..n - 1] == seq(n - 1, i => 0);
      TotalZero(n - 1);
    }
  }

  lemma WinnerSeated(t: Trick)
    requires TrickFormed(t) && t.plays != []
    ensures 1 <= Winner(t) <= t.count
  {
    FormedSeated(t);
  }

  // Every completed trick is won once.
  lemma {:induction false} WonTotal(tricks: seq<Trick>, n: nat)
    requires n > 0 && TricksFormed(tricks) && SameTable(tricks, n)
    requires forall i :: 0 <= i < |tricks| ==> Complete(tricks[i])
    ensures Total(WonCounts(tricks, n)) == |tricks|
    ensures forall i :: 0 <= i < n ==> WonCounts(tricks, n)[i] <= |tricks|
  {
    hide TrickFormed, Winner;
    if tricks == [] {
      TotalZero(n);
      assert WonCounts(tricks, n) == seq(n, i => 0);
    } else {
      var init, last := tricks[..|tricks| - 1], tricks[|tricks| - 1];
      WonTotal(init, n);
      WinnerSeated(last);
      var before := WonCounts(init, n);
      var k := Winner(last) - 1;
      assert WonCounts(tricks, n) == before[k := before[k] + 1];
      TotalBump(before, k);
    }
  }

  // score_deal never raises on a deal that the audit accepts.
  lemma ScoresExist(deal: Deal, config: Config)
    requires ConfigFormed(config) && RosterOk(deal.players, config.count) && AllBid(deal.players)
    requires forall i :: 0 <= i < |deal.players| ==> 1 <= deal.players[i].bid.value <= TricksPerDeal(config)
    requires TricksFormed(deal.completed) && SameTable(deal.completed, config.count)
    requires |deal.completed| == TricksPerDeal(config)
             && forall i :: 0 <= i < |deal.completed| ==> Complete(deal.completed[i])
    ensures ScoreDeal(Bids(deal.players), TricksWon(deal)).Some? && Total(TricksWon(deal)) == TricksPerDeal(config)
  {
    hide TrickFormed, Winner, Total, TricksWonBy, Complete;
    WonTotal(deal.completed, config.count);
    assert TricksWon(deal) == WonCounts(deal.completed, config.count);
  }

  // ---- the deal after a card

  lemma PlayedBids(deal: Deal, d: Deal, each: nat)
    requires |deal.players| > 0 && 1 <= deal.dealer <= |deal.players| && BidsOk(deal, each) && Tricks(deal) != []
    requires |d.players| == |deal.players| && d.dealer == deal.dealer
    requires forall q :: 0 <= q < |d.players| ==> d.players[q].bid == deal.players[q].bid
    ensures BidsOk(d, each) && AllBid(d.players)
    ensures forall q :: 0 <= q < |d.players| ==> 1 <= d.players[q].bid.value <= each
  {
    hide Advance, HandIndex;
    forall i | 0 <= i < |d.players| ensures BidAt(d, i) == BidAt(deal, i) {}
    OrderCovers(deal, |deal.players|);
  }

  // The audit of a deal, from its parts.
  lemma AuditParts(deal: Deal, d: Deal, config: Config)
    requires ConfigFormed(config) && TricksFormed(Tricks(deal)) && DealAudit(deal, config) && Tricks(deal) != []
    requires d == deal.(players := d.players, currentTrick := d.currentTrick, completed := d.completed)
    requires RosterOk(d.players, config.count)
             && forall q :: 0 <= q < config.count ==> d.players[q].bid == deal.players[q].bid
    requires TricksFormed(Tricks(d)) && TricksOk(d, config.count, TricksPerDeal(config))
             && HandsOk(d, config.count, TricksPerDeal(config))
    requires ReplayTricks(Opening(d), Tricks(d)).Some?
    ensures DealAudit(d, config) && AllBid(d.players)
    ensures forall q :: 0 <= q < |d.players| ==> 1 <= d.players[q].bid.value <= TricksPerDeal(config)
  {
    hide BidsOk, HandsOk, TricksOk, ReplayTricks, Opening, TricksFormed, AllBid, AcceptedOk;
    PlayedBids(deal, d, TricksPerDeal(config));
  }

  lemma PlayedIs(deal: Deal, n: nat, id: nat, card: Card)
    requires deal.currentTrick.Some? && RosterOk(deal.players, n)
    ensures var d := Played(deal, id, card);
            && d == deal.(players := d.players, currentTrick := d.currentTrick, completed := d.completed)
            && d.currentTrick.Some? && d.completed == deal.completed && |d.players| == |deal.players|
            && forall q :: 0 <= q < n ==> d.players[q].bid == deal.players[q].bid
  {
  }

  lemma CurrentFormed(deal: Deal, config: Config)
    requires ConfigFormed(config) && TricksFormed(Tricks(deal)) && DealAudit(deal, config) && deal.currentTrick.Some?
    ensures Tricks(deal) != [] && TrickFormed(deal.currentTrick.value) && deal.currentTrick.value.count == config.count
    ensures RosterOk(deal.players, config.count) && |deal.completed| < TricksPerDeal(config)
    ensures forall i :: 0 <= i < |deal.completed| ==> Complete(deal.completed[i])
  {
    hide TrickFormed, FullDeck, BidAt, ReplayTricks;
    assert Tricks(deal)[|deal.completed|] == deal.currentTrick.value;
  }

  lemma TrickGoesOn(deal: Deal, config: Config, id: nat, card: Card)
    requires ConfigFormed(config) && TricksFormed(Tricks(deal)) && DealAudit(deal, config) && Settled(deal)
    requires deal.currentTrick.Some? && 1 <= id <= config.count
    requires ValidatePlay(deal.players[id - 1].hand, deal.currentTrick.value, id, card) == Ok
    requires !Complete(Played(deal, id, card).currentTrick.value)
    ensures var d := Played(deal, id, card);
            TricksFormed(Tricks(d)) && DealAudit(d, config) && Settled(d)
  {
    hide Around, EachOf, LeftOver;
    CurrentFormed(deal, config);
    PlayedOk(deal, config, id, card);
    PlayedIs(deal, config.count, id, card);
    hide Played, DealAudit, HandsOk, ReplayTricks, Opening, TricksFormed, ValidatePlay, TrickFormed, Winner;
    AuditParts(deal, Played(deal, id, card), config);
  }

  // ---- a complete trick is archived

  lemma ArchivedSame(d: Deal, n: nat)
    requires d.currentTrick.Some? && |d.players| == n > 0 && d.dealer > 0
    ensures Tricks(Archived(d)) == Tricks(d) && Opening(Archived(d)) == Opening(d)
    ensures forall each :: HandsOk(d, n, each) <==> HandsOk(Archived(d), n, each)
  {
    hide FullDeck, Rebuilt, Sets, Flat;
    assert Tricks(Archived(d)) == Tricks(d);
  }

  lemma ArchivedOk(deal: Deal, config: Config, id: nat, card: Card)
    requires ConfigFormed(config) && TricksFormed(Tricks(deal)) && DealAudit(deal, config) && Settled(deal)
    requires deal.currentTrick.Some? && 1 <= id <= config.count
    requires ValidatePlay(deal.players[id - 1].hand, deal.currentTrick.value, id, card) == Ok
    requires Complete(Played(deal, id, card).currentTrick.value)
    ensures var trick := Played(deal, id, card).currentTrick.value;
            var a := Archived(Played(deal, id, card));
            && TrickFormed(trick) && trick.plays != [] && trick.count == config.count
            && TricksFormed(Tricks(a)) && DealAudit(a, config) && AllBid(a.players)
            && (forall q :: 0 <= q < |a.players| ==> 1 <= a.players[q].bid.value <= TricksPerDeal(config))
            && ReplayTricks(Opening(a), Tricks(a)) == Some(Table(HandSets(a.players), Winner(trick)))
            && Tricks(a) != [] && a.currentTrick.None? && |a.completed| == |deal.completed| + 1 <= TricksPerDeal(config)
            && a.number == deal.number && a.dealer == deal.dealer && a.accepted == deal.accepted
  {
    hide Around, EachOf, LeftOver, Advance, Legal, CurrentPlayer, Sets, BidsOk, FullDeck, Rebuilt, AcceptedOk,
      DealAudit, HandsOk, ReplayTricks,
      Opening, TricksFormed, ValidatePlay, TrickFormed, Winner, Settled;
    CurrentFormed(deal, config);
    PlayedOk(deal, config, id, card);
    PlayedIs(deal, config.count, id, card);
    var d := Played(deal, id, card);
    AuditedFacts(deal, config);
    assert d.currentTrick.value.plays != [] && d.currentTrick.value.count == config.count;
    hide Played;
    ArchivedSame(d, config.count);
    AuditParts(deal, Archived(d), config);
  }

  lemma ResumedSame(a: Deal, n: nat, leader: nat)
    requires a.currentTrick.None? && |a.players| == n > 0 && a.dealer > 0
    ensures Tricks(Resumed(a, n, leader)) == Tricks(a) + [Trick(n, leader, [])]
    ensures Opening(Resumed(a, n, leader)) == Opening(a)
    ensures forall each :: HandsOk(a, n, each) <==> HandsOk(Resumed(a, n, leader), n, each)
  {
    hide FullDeck, Sets, Flat, CardsBy, AllPlays;
    var e := Resumed(a, n, leader);
    assert Tricks(a) == a.completed;
    AllPlaysNext(Tricks(a), Trick(n, leader, []));
    assert AllPlays(Tricks(e)) == AllPlays(Tricks(a));
    assert Rebuilt(e.players, Tricks(e)) == Rebuilt(a.players, Tricks(a));
  }

  // The winner leads the next, empty, trick.
  lemma NextTrickOk(a: Deal, config: Config, leader: nat)
    requires ConfigFormed(config) && TricksFormed(Tricks(a)) && DealAudit(a, config) && Tricks(a) != []
    requires a.currentTrick.None? && |a.completed| < TricksPerDeal(config) && 1 <= leader <= config.count
    requires ReplayTricks(Opening(a), Tricks(a)) == Some(Table(HandSets(a.players), leader))
    ensures var e := Resumed(a, config.count, leader);
            TricksFormed(Tricks(e)) && DealAudit(e, config) && Settled(e)
  {
    var e := Resumed(a, config.count, leader);
    var t := Trick(config.count, leader, []);
    ResumedSame(a, config.count, leader);
    AuditedFacts(a, config);
    assert TrickFormed(t) && !Complete(t);
    hide HandsOk, ReplayTricks, Opening, TrickFormed, Winner, BidAt;
    LastTrick(Opening(a), Tricks(a), t);
    NothingReplayed(HandSets(a.players), leader, []);
    AuditParts(a, e, config);
  }

  lemma LastTrickOk(a: Deal, config: Config)
    requires ConfigFormed(config) && TricksFormed(Tricks(a)) && DealAudit(a, config) && AllBid(a.players)
    requires forall q :: 0 <= q < |a.players| ==> 1 <= a.players[q].bid.value <= TricksPerDeal(config)
    requires a.currentTrick.None? && |a.completed| == TricksPerDeal(config)
    ensures NoHandsLeft(a.players) && ScoreDeal(Bids(a.players), TricksWon(a)).Some?
  {
    hide HandsOk, ReplayTricks, Opening, TrickFormed, Winner, BidAt, AllBid, ScoreDeal, TricksWon, Bids, Complete;
    assert Tricks(a) == a.completed;
    HandsRunOut(a, config.count, TricksPerDeal(config));
    ScoresExist(a, config);
  }

  // ---- the hand a player holds is always one the validator accepts

  lemma {:induction false} CardsByHas(plays: seq<Play>, i: nat)
    requires i < |plays|
    ensures plays[i].card in CardsBy(plays, plays[i].player)
  {
    if i < |plays| - 1 {
      CardsByHas(plays[..|plays| - 1], i);
    }
  }

  lemma PlayedNotHeld(deal: Deal, n: nat, each: nat, q: nat, i: nat)
    requires n > 0 && HandsOk(deal, n, each) && |deal.players| == n && q < n && deal.currentTrick.Some?
    requires Seated(deal.currentTrick.value.plays, n) && i < |deal.currentTrick.value.plays|
    ensures deal.currentTrick.value.plays[i].card !in deal.players[q].hand
  {
    hide CardsBy, AllPlays, FullDeck, Flat;
    var t := deal.currentTrick.value;
    var hands := Rebuilt(deal.players, Tricks(deal));
    TricksOf(deal, t);
    var plays := AllPlays(Tricks(deal));
    var k, p, c := |AllPlays(deal.completed)| + i, t.plays[i].player - 1, t.plays[i].card;
    assert plays[k] == t.plays[i];
    CardsByHas(plays, k);
    HandsDistinct(deal, n, each);
    DeckSize(deal.undealt + Flat(hands));
    FullDeckIsDistinct(deal.undealt + Flat(hands));
    NoDupConcat(deal.undealt, Flat(hands));
    assert c in hands[p];
    if p == q {
      NoDupConcat(deal.players[q].hand, CardsBy(plays, q + 1));
      assert c in Elems(CardsBy(plays, q + 1));
    } else {
      FlatApart(hands, p, q, c);
    }
  }

  lemma HeldHand(deal: Deal, config: Config, id: nat)
    requires ConfigFormed(config) && TricksFormed(Tricks(deal)) && DealAudit(deal, config) && deal.currentTrick.Some?
    requires 1 <= id <= config.count
    ensures HandOk(deal.players[id - 1].hand, deal.currentTrick.value)
  {
    CurrentFormed(deal, config);
    var n, each, t := config.count, TricksPerDeal(config), deal.currentTrick.value;
    hide FullDeck, BidAt, ReplayTricks, CardsBy, AllPlays, Flat;
    FormedSeated(t);
    HandDistinct(deal, n, each, id - 1);
    NoDupSize(deal.players[id - 1].hand);
    assert |Rebuilt(deal.players, Tricks(deal))[id - 1]| == each;
    forall i | 0 <= i < |t.plays| ensures t.plays[i].card !in deal.players[id - 1].hand {
      PlayedNotHeld(deal, n, each, id - 1, i);
    }
  }

  // ---- the match after a card

  // The next match when a trick is won before the deal is over.
  lemma TrickWon(s: Match, a: Deal, leader: nat)
    requires Inv(s) && s.currentDeal.Some? && s.phase == Playing
    requires TricksFormed(Tricks(a)) && DealAudit(a, s.config) && Tricks(a) != []
    requires a.currentTrick.None? && |a.completed| < TricksPerDeal(s.config) && 1 <= leader <= s.config.count
    requires ReplayTricks(Opening(a), Tricks(a)) == Some(Table(HandSets(a.players), leader))
    requires a.number == s.currentDeal.value.number && a.dealer == s.currentDeal.value.dealer
    requires a.accepted == s.currentDeal.value.accepted
    ensures TrickFormed(Trick(s.config.count, leader, []))
    ensures Inv(s.(currentDeal := Some(Resumed(a, s.config.count, leader)), revision := s.revision + 1))
  {
    hide ArchiveOk, AbandonedOk, TricksFormed, DealAudit, Settled, ReplayTricks, Opening, Advance;
    NextTrickOk(a, s.config, leader);
    NewCurrent(s, s.(currentDeal := Some(Resumed(a, s.config.count, leader)), revision := s.revision + 1));
  }

  // The next match when the last trick is won: the deal is scored and archived.
  lemma DealDone(s: Match, a: Deal)
    requires Inv(s) && s.currentDeal.Some? && s.phase == Playing
    requires TricksFormed(Tricks(a)) && DealAudit(a, s.config) && AllBid(a.players)
    requires forall q :: 0 <= q < |a.players| ==> 1 <= a.players[q].bid.value <= TricksPerDeal(s.config)
    requires a.currentTrick.None? && |a.completed| == TricksPerDeal(s.config)
    requires a.number == s.currentDeal.value.number && a.dealer == s.currentDeal.value.dealer
    ensures FinishDeal(s, a).Accepted? && Inv(FinishDeal(s, a).next)
  {
    hide AbandonedOk, TricksFormed, DealAudit, Settled, ReplayTricks, Opening, Advance, NoHandsLeft, AllBid,
      ScoreDeal, TricksWon, Bids;
    LastTrickOk(a, s.config);
    var t := FinishDeal(s, a).next;
    assert Formed(t);
    ArchivesKept(s, t);
    AbandonedKept(s, t);
    assert ArchiveOk(t, |s.completed|);
    hide ArchiveOk;
    assert forall i :: 0 <= i < |t.completed| ==> ArchiveOk(t, i);
  }

  lemma PlayingDeal(s: Match)
    requires Inv(s) && s.phase == Playing && s.currentDeal.Some?
    ensures var deal := s.currentDeal.value;
            && ConfigFormed(s.config) && TricksFormed(Tricks(deal)) && DealAudit(deal, s.config) && Settled(deal)
            && deal.currentTrick.Some? && CurrentOk(s) && |deal.players| == s.config.count
  {
    hide TricksFormed, Settled, FullDeck, ReplayTricks, ArchiveOk, HandsOk;
  }

  lemma FormedLeader(t: Trick)
    requires TrickFormed(t)
    ensures t.count > 0 && 1 <= t.leader <= t.count && t.count <= 5
  {
  }

  // What a legal card commits.
  lemma LegalPlayShape(s: Match, deal: Deal, id: nat, card: Card)
    requires ConfigFormed(s.config) && 1 <= id <= |deal.players|
    requires deal.currentTrick.Some? && deal.currentTrick.value.count > 0 && deal.currentTrick.value.leader > 0
    requires ValidatePlay(deal.players[id - 1].hand, deal.currentTrick.value, id, card) == Ok
    requires Played(deal, id, card).currentTrick.Some? && TrickFormed(Played(deal, id, card).currentTrick.value)
    ensures var d := Played(deal, id, card); var trick := d.currentTrick.value; var r := ApplyPlay(s, deal, id, card);
            if !Complete(trick) then r == Accepted(s.(currentDeal := Some(d), revision := s.revision + 1))
            else
              trick.plays != [] &&
              if |Archived(d).completed| < TricksPerDeal(s.config) then
                TrickFormed(Trick(s.config.count, Winner(trick), [])) ==>
                  r == Accepted(s.(currentDeal := Some(Resumed(Archived(d), s.config.count, Winner(trick))),
                      revision := s.revision + 1))
              else r == FinishDeal(s, Archived(d))
  {
    hide ValidatePlay, FinishDeal, Winner, Archived, Resumed, TrickFormed, WithoutCard;
  }

  lemma LegalPlayKeeps(s: Match, id: nat, card: Card)
    requires Inv(s) && s.currentDeal.Some? && s.phase == Playing
    requires 1 <= id <= s.config.count && id <= |s.currentDeal.value.players|
    requires s.currentDeal.value.currentTrick.Some? && TrickFormed(s.currentDeal.value.currentTrick.value)
    requires ValidatePlay(s.currentDeal.value.players[id - 1].hand, s.currentDeal.value.currentTrick.value,
             id, card) == Ok
    ensures var r := ApplyPlay(s, s.currentDeal.value, id, card); r.Accepted? && Inv(r.next)
  {
    var deal, config := s.currentDeal.value, s.config;
    PlayingDeal(s);
    hide Inv, ConfigFormed, CurrentOk, Settled, ReplayTricks, TricksFormed, DealAudit, ValidatePlay,
      TrickFormed, Played,
      FinishDeal, Winner, Opening, RosterOk, HandsOk, Archived, Tricks, HandSets, AllBid;
    CurrentFormed(deal, config);
    FormedLeader(deal.currentTrick.value);
    PlayedOk(deal, config, id, card);
    PlayedIs(deal, config.count, id, card);
    var d := Played(deal, id, card);
    LegalPlayShape(s, deal, id, card);
    hide ApplyPlay;
    if !Complete(d.currentTrick.value) {
      TrickGoesOn(deal, config, id, card);
      PlayGoesOn(s, d);
    } else {
      TrickEnds(s, id, card);
    }
  }

  lemma TrickEnds(s: Match, id: nat, card: Card)
    requires Inv(s) && s.currentDeal.Some? && s.phase == Playing && s.currentDeal.value.currentTrick.Some?
    requires ConfigFormed(s.config) && TricksFormed(Tricks(s.currentDeal.value))
             && DealAudit(s.currentDeal.value, s.config)
    requires Settled(s.currentDeal.value)
    requires 1 <= id <= s.config.count && id <= |s.currentDeal.value.players|
    requires ValidatePlay(s.currentDeal.value.players[id - 1].hand, s.currentDeal.value.currentTrick.value,
             id, card) == Ok
    requires Complete(Played(s.currentDeal.value, id, card).currentTrick.value)
    ensures var d := Played(s.currentDeal.value, id, card); var a := Archived(d); var trick := d.currentTrick.value;
            trick.plays != [] &&
            if |a.completed| < TricksPerDeal(s.config) then
              TrickFormed(Trick(s.config.count, Winner(trick), []))
              && Inv(s.(currentDeal := Some(Resumed(a, s.config.count, Winner(trick))), revision := s.revision + 1))
            else FinishDeal(s, a).Accepted? && Inv(FinishDeal(s, a).next)
  {
    hide Inv, ConfigFormed, Settled, ReplayTricks, TricksFormed, DealAudit, ValidatePlay, TrickFormed,
      FinishDeal, Winner, Opening, Archived, Tricks, HandSets, AllBid, Complete, Resumed;
    var deal := s.currentDeal.value;
    ArchivedOk(deal, s.config, id, card);
    var d := Played(deal, id, card);
    var a, w := Archived(d), Winner(d.currentTrick.value);
    WinnerSeated(d.currentTrick.value);
    if |a.completed| < TricksPerDeal(s.config) {
      TrickWon(s, a, w);
    } else {
      DealDone(s, a);
    }
  }

  lemma PlayGoesOn(s: Match, d: Deal)
    requires Inv(s) && s.currentDeal.Some? && s.phase == Playing
    requires TricksFormed(Tricks(d)) && DealAudit(d, s.config) && Settled(d) && d.currentTrick.Some?
    requires var deal := s.currentDeal.value; d == deal.(players := d.players, currentTrick := d.currentTrick,
             completed := d.completed)
    ensures Inv(s.(currentDeal := Some(d), revision := s.revision + 1))
  {
    hide ArchiveOk, AbandonedOk, TricksFormed, DealAudit, Settled, Advance;
    NewCurrent(s, s.(currentDeal := Some(d), revision := s.revision + 1));
  }

  lemma PlayKeeps(s: Match, id: nat, card: Card)
    requires Inv(s) && s.currentDeal.Some? && s.phase == Playing
    requires 1 <= id <= s.config.count && id <= |s.currentDeal.value.players|
    ensures Keeps(ApplyPlay(s, s.currentDeal.value, id, card))
  {
    var deal, config := s.currentDeal.value, s.config;
    PlayingDeal(s);
    hide Inv, DealAudit, TricksFormed, Settled, ReplayTricks, TrickFormed, Played, FinishDeal, Winner,
      LegalCards, CurrentOk;
    CurrentFormed(deal, config);
    var t, hand := deal.currentTrick.value, deal.players[id - 1].hand;
    HeldHand(deal, config, id);
    FormedLeader(t);
    if ValidatePlay(hand, t, id, card) == Ok {
      LegalPlayKeeps(s, id, card);
    }
  }
}
