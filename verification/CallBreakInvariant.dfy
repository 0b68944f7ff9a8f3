// Every reachable match passes its audit. The invariant adds two facts: the
// replay of the history from the rebuilt hands ends in the hands now held, and a
// review is over once everybody has accepted. Here for the controller, the
// preparation of a deal, the review of hands and the bids.
module CallBreakInvariant {
  import opened Prelude
  import opened Cards
  import opened Dealing
  import opened CallBreakRules
  import opened CallBreakDeals
  import opened CallBreakMatch

  ghost predicate Settled(deal: Deal)
    requires |deal.players| > 0 && deal.dealer > 0
    requires TricksFormed(Tricks(deal)) && SameTable(Tricks(deal), |deal.players|)
  {
    var end := ReplayTricks(Opening(deal), Tricks(deal));
    && end.Some? && end.value.hands == HandSets(deal.players)
    && (deal.currentTrick.Some? ==> end.value.leader == deal.currentTrick.value.leader)
  }

  ghost predicate Inv(s: Match) {
    && Formed(s) && AuditMatch(s)
    && (s.currentDeal.Some? ==> Settled(s.currentDeal.value))
    && Reviewing(s)
  }

  // A review is over as soon as everybody has accepted.
  predicate Reviewing(s: Match) {
    s.phase == HandReview && s.currentDeal.Some? ==> |s.currentDeal.value.accepted| < s.config.count
  }

  // ---- lists of hands

  // Hands with the same cards and sizes make the same deck.
  lemma SameDeck(undealt: seq<Card>, before: seq<seq<Card>>, after: seq<seq<Card>>, each: nat)
    requires |before| == |after|
    requires forall q :: 0 <= q < |before| ==>
             |before[q]| == each && |after[q]| == each && Elems(after[q]) == Elems(before[q])
    requires FullDeck(undealt + Flat(before))
    ensures FullDeck(undealt + Flat(after))
  {
    FlatLength(before, each);
    FlatLength(after, each);
    forall c ensures c in Flat(after) <==> c in Flat(before) {
      FlatElems(after, c);
      FlatElems(before, c);
      forall q | 0 <= q < |before| ensures c in after[q] <==> c in before[q] {
        assert c in Elems(after[q]) <==> c in Elems(before[q]);
      }
    }
    ElemsConcat(undealt, Flat(after));
    ElemsConcat(undealt, Flat(before));
    assert Elems(Flat(after)) == Elems(Flat(before));
  }

  // ---- a new deal

  lemma {:induction false} NoBidsCount(players: seq<PlayerDeal>)
    requires NoBids(players)
    ensures BidCount(players) == 0
  {
    if players != [] { NoBidsCount(players[..|players| - 1]); }
  }

  lemma NewDealOk(deck: seq<Card>, config: Config, number: nat, attempt: nat, dealer: nat)
    requires ConfigFormed(config) && FullDeck(deck) && 1 <= dealer <= config.count
    requires 1 <= number <= 5 && attempt >= 1 && config.count * TricksPerDeal(config) <= |deck|
    ensures var deal := NewDeal(deck, config, number, attempt, dealer);
            TricksFormed(Tricks(deal)) && DealAudit(deal, config) && Unplayed(deal) && Settled(deal)
  {
    hide FullDeck, Stride, HandIndex, Flat, Elems, BidsOk, BidAt, Advance, HandsOk, EachOf;
    var deal := NewDeal(deck, config, number, attempt, dealer);
    NewDealHands(deck, config, number, attempt, dealer);
    NothingPlayed(deal.players);
    assert Tricks(deal) == [];
    assert Opening(deal).hands == HandSets(deal.players);
    UnplayedBids(deal, TricksPerDeal(config));
  }

  lemma NewDealHands(deck: seq<Card>, config: Config, number: nat, attempt: nat, dealer: nat)
    requires ConfigFormed(config) && FullDeck(deck) && 1 <= dealer <= config.count
    requires config.count * TricksPerDeal(config) <= |deck|
    ensures HandsOk(NewDeal(deck, config, number, attempt, dealer), config.count, TricksPerDeal(config))
  {
    hide FullDeck, Stride, HandIndex, Flat, Elems;
    var deal := NewDeal(deck, config, number, attempt, dealer);
    var n, each := config.count, TricksPerDeal(config);
    DeckSize(deck);
    DealtDeck(deck, dealer, n, each);
    NothingPlayed(deal.players);
    assert Rebuilt(deal.players, []) == DealtHands(deck, dealer, n, each);
    assert Tricks(deal) == [];
  }

  lemma UnplayedBids(deal: Deal, each: nat)
    requires Unplayed(deal) && |deal.players| > 0 && deal.dealer > 0
    ensures BidsOk(deal, each)
  {
  }

  // ---- frames over a match

  lemma ArchivesKept(s: Match, t: Match)
    requires Formed(s) && Formed(t) && s.initialDealer > 0
    requires t.config == s.config && t.initialDealer == s.initialDealer && s.completed <= t.completed
    requires forall i :: 0 <= i < |s.completed| ==> ArchiveOk(s, i)
    ensures forall i :: 0 <= i < |s.completed| ==> ArchiveOk(t, i)
  {
    forall i | 0 <= i < |s.completed| ensures ArchiveOk(t, i) {
      assert ArchiveOk(s, i) && t.completed[i] == s.completed[i];
    }
  }

  lemma AbandonedKept(s: Match, t: Match)
    requires Formed(s) && Formed(t) && t.config == s.config && s.abandoned <= t.abandoned
    requires forall i :: 0 <= i < |s.abandoned| ==> AbandonedOk(s, i)
    ensures forall i :: 0 <= i < |s.abandoned| ==> AbandonedOk(t, i)
  {
    forall i | 0 <= i < |s.abandoned| ensures AbandonedOk(t, i) {
      assert AbandonedOk(s, i) && t.abandoned[i] == s.abandoned[i];
    }
  }

  // Replacing the current deal by an audited one, archives untouched.
  lemma NewCurrent(s: Match, t: Match)
    requires Inv(s) && t.config == s.config && t.initialDealer == s.initialDealer
    requires t.completed == s.completed && t.abandoned == s.abandoned
    requires t.currentDeal.Some? && TricksFormed(Tricks(t.currentDeal.value))
             && DealAudit(t.currentDeal.value, s.config)
    requires Settled(t.currentDeal.value)
    requires t.preparation.None? && Active(t.phase) && s.phase != MatchComplete
    requires CurrentOk(t) && Reviewing(t)
    ensures Inv(t)
  {
    hide DealAudit, TricksFormed, ConfigFormed, CurrentOk, ArchiveOk, AbandonedOk, Settled;
    ArchivesKept(s, t);
    AbandonedKept(s, t);
  }

  lemma FreshInv(config: Config, initialDealer: nat)
    requires ConfigFormed(config) && 1 <= initialDealer <= config.count
    ensures Inv(NewMatch(config, initialDealer))
  {
  }

  // ---- distribution

  // A full deck is always dealt: the check on the new deal never fails.
  lemma DistributeShape(s: Match, deck: seq<Card>, number: nat, attempt: nat, dealer: nat, abandoned: seq<Deal>)
    requires ConfigFormed(s.config) && FullDeck(deck) && 1 <= number <= 5 && attempt >= 1
             && 1 <= dealer <= s.config.count
    ensures s.config.count * TricksPerDeal(s.config) <= |deck|
    ensures var deal := NewDeal(deck, s.config, number, attempt, dealer);
            Distribute(s, deck, number, attempt, dealer, abandoned) ==
            Accepted(s.(phase := if RedealEnabled(s.config.policy) then HandReview else Bidding,
                        currentDeal := Some(deal), preparation := None, abandoned := s.abandoned + abandoned,
                        revision := s.revision + 1))
  {
    hide FullDeck, DealAudit, Settled, NewDeal, Unplayed, TricksFormed;
    var n, each := s.config.count, TricksPerDeal(s.config);
    DeckSize(deck);
    assert n * each <= 52;
    NewDealOk(deck, s.config, number, attempt, dealer);
  }

  lemma DistributeKeeps(s: Match, deck: seq<Card>, number: nat, attempt: nat, dealer: nat, abandoned: seq<Deal>)
    requires Inv(s) && FullDeck(deck) && number == |s.completed| + 1 <= 5 && attempt >= 1
             && dealer == NextDealer(s, number)
    requires s.phase != MatchComplete
    requires forall i :: 0 <= i < |abandoned| ==>
               TricksFormed(Tricks(abandoned[i])) && DealAudit(abandoned[i], s.config) && Unplayed(abandoned[i])
    ensures var r := Distribute(s, deck, number, attempt, dealer, abandoned); r.Accepted? && Inv(r.next)
  {
    hide FullDeck, ArchiveOk, DealAudit, Settled, NewDeal, Unplayed, TricksFormed, Distribute, Advance, RedealEnabled;
    DistributeShape(s, deck, number, attempt, dealer, abandoned);
    NewDealOk(deck, s.config, number, attempt, dealer);
    NewDealIs(deck, s.config, number, attempt, dealer);
    var t := Distribute(s, deck, number, attempt, dealer, abandoned).next;
    NoBidsSome(t.currentDeal.value);
    ArchivesKept(s, t);
    forall i | 0 <= i < |t.abandoned| ensures AbandonedOk(t, i) {
      if i < |s.abandoned| { assert AbandonedOk(s, i); } else { assert t.abandoned[i] == abandoned[i - |s.abandoned|]; }
    }
    assert CurrentOk(t);
  }

  lemma NoBidsSome(deal: Deal)
    requires Unplayed(deal) && |deal.players| > 0
    ensures !AllBid(deal.players)
  {
    assert deal.players[0].bid.None?;
  }

  lemma NewDealIs(deck: seq<Card>, config: Config, number: nat, attempt: nat, dealer: nat)
    requires ConfigFormed(config) && 1 <= dealer <= config.count && config.count * TricksPerDeal(config) <= |deck|
    ensures var deal := NewDeal(deck, config, number, attempt, dealer);
            deal.number == number && deal.dealer == dealer && |deal.players| == config.count && deal.accepted == []
            && deal.currentTrick.None? && deal.completed == []
  {
  }

  // An outcome the invariant survives: never an exception, never a lost deck.
  ghost predicate Keeps(r: Outcome) {
    r != Failed && r != Rejected(InvalidDistribution) && (r.Accepted? ==> Inv(r.next))
  }

  // ---- controller commands

  lemma PrepareKeeps(s: Match)
    requires Inv(s) && s.initialDealer > 0
    ensures Keeps(ApplyControl(s, PrepareDeal))
  {
    hide DealAudit, ArchiveOk, TricksFormed, Settled, FullDeck;
    var r := ApplyControl(s, PrepareDeal);
    if r.Accepted? {
      var t := r.next;
      ArchivesKept(s, t);
      forall i | 0 <= i < |t.abandoned| ensures AbandonedOk(t, i) {
        if i < |s.abandoned| { assert AbandonedOk(s, i); }
      }
    }
  }

  lemma ShuffledKeeps(s: Match, deck: seq<Card>)
    requires Inv(s) && s.initialDealer > 0
    ensures Keeps(ApplyControl(s, CompleteShuffle(deck)))
  {
    hide DealAudit, ArchiveOk, TricksFormed, Settled, FullDeck;
    var r := ApplyControl(s, CompleteShuffle(deck));
    if r.Accepted? {
      ArchivesKept(s, r.next);
      AbandonedKept(s, r.next);
    }
  }

  lemma ControlKeeps(s: Match, command: Control)
    requires Inv(s) && s.initialDealer > 0
    ensures Keeps(ApplyControl(s, command))
  {
    match command
    case PrepareDeal => PrepareKeeps(s);
    case CompleteShuffle(deck) => ShuffledKeeps(s, deck);
    case StartDeal(deck) => StartDealKeeps(s, deck);
    case Redeal(deck) => RedealKeeps(s, deck);
  }

  lemma StartDealKeeps(s: Match, deck: seq<Card>)
    requires Inv(s) && s.initialDealer > 0
    ensures Keeps(ApplyControl(s, StartDeal(deck)))
  {
    hide DealAudit, ArchiveOk, TricksFormed, Settled, FullDeck, Distribute;
    if (s.phase == AwaitingDeal || s.phase == DealComplete) && FullDeck(deck) {
      DistributeKeeps(s, deck, |s.completed| + 1, 1, NextDealer(s, |s.completed| + 1), []);
    }
  }

  lemma RedealKeeps(s: Match, deck: seq<Card>)
    requires Inv(s) && s.initialDealer > 0
    ensures Keeps(ApplyControl(s, Redeal(deck)))
  {
    hide DealAudit, ArchiveOk, TricksFormed, Settled, FullDeck, Distribute, Unplayed, EachOf, Around,
      NoHandsLeft, AbandonedOk;
    if s.phase == AwaitingRedeal && FullDeck(deck) {
      var prior := s.currentDeal.value;
      AuditedFacts(prior, s.config);
      DistributeKeeps(s, deck, prior.number, prior.attempt + 1, prior.dealer, [prior]);
    }
  }

  lemma AuditedFacts(deal: Deal, config: Config)
    requires ConfigFormed(config) && TricksFormed(Tricks(deal)) && DealAudit(deal, config)
    ensures deal.attempt >= 1 && 1 <= deal.number <= 5 && |deal.players| == config.count
            && 1 <= deal.dealer <= config.count && AcceptedOk(deal.accepted, config.count)
    ensures forall i :: 0 <= i < |deal.players| ==> deal.players[i].id == i + 1
  {
  }

  // ---- shuffle request, cut and distribution

  lemma PreparationKeeps(s: Match, id: nat, action: Action)
    requires Inv(s) && (action.ShuffleDeck? || action.CutDeck? || action.SkipCut?)
    ensures Keeps(ApplyPreparation(s, id, action))
  {
    hide DealAudit, ArchiveOk, TricksFormed, Settled, FullDeck, Cut;
    var r := ApplyPreparation(s, id, action);
    if s.preparation.Some? && (s.phase == AwaitingCut) {
      DeckSize(s.preparation.value.deck);
      if action.CutDeck? && 1 <= action.position <= 51 {
        CutFull(s.preparation.value.deck, action.position);
      }
    }
    if r.Accepted? {
      ArchivesKept(s, r.next);
      AbandonedKept(s, r.next);
    }
  }

  lemma CutFull(deck: seq<Card>, position: nat)
    requires FullDeck(deck) && position <= 52
    ensures |deck| == 52 && FullDeck(Cut(deck, position))
  {
    CutKeeps(deck, position);
  }

  // ---- hand review

  lemma {:induction false} InsertIdKeeps(ids: seq<nat>, id: nat, n: nat)
    requires AcceptedOk(ids, n) && id !in ids && 1 <= id <= n
    ensures AcceptedOk(InsertId(ids, id), n) && |InsertId(ids, id)| == |ids| + 1
    ensures forall x :: x in InsertId(ids, id) <==> x == id || x in ids
  {
    if ids == [] {
    } else if ids[0] < id {
      var rest := InsertId(ids[1..], id);
      AcceptedTail(ids, n);
      InsertIdKeeps(ids[1..], id, n);
      forall i | 0 <= i < |rest| ensures ids[0] < rest[i] {
        assert rest[i] in rest;
        if rest[i] != id { assert rest[i] in ids[1..]; }
      }
      AcceptedCons(ids[0], rest, n);
      assert ids == [ids[0]] + ids[1..];
    } else {
      assert ids[0] in ids;
      forall i | 0 <= i < |ids| ensures id < ids[i] { assert ids[0] <= ids[i]; }
      AcceptedCons(id, ids, n);
    }
  }

  lemma AcceptedTail(ids: seq<nat>, n: nat)
    requires ids != [] && AcceptedOk(ids, n)
    ensures AcceptedOk(ids[1..], n) && forall x :: x in ids[1..] ==> ids[0] < x
  {
  }

  lemma AcceptedCons(id: nat, ids: seq<nat>, n: nat)
    requires AcceptedOk(ids, n) && 1 <= id <= n && forall i :: 0 <= i < |ids| ==> id < ids[i]
    ensures AcceptedOk([id] + ids, n)
  {
  }

  // n different ids out of 1..n in order are all of them.
  lemma {:induction false} AllAccepted(ids: seq<nat>, n: nat)
    requires AcceptedOk(ids, n) && |ids| == n
    ensures ids == AllIds(n)
  {
    var i := 0;
    while i < n
      invariant i <= n
      invariant forall k :: 0 <= k < i ==> ids[k] >= k + 1
    {
      if i > 0 { assert ids[i - 1] < ids[i]; }
      i := i + 1;
    }
    var j := n;
    while j > 0
      invariant 0 <= j <= n
      invariant forall k :: j <= k < n ==> ids[k] <= k + 1
    {
      if j < n { assert ids[j - 1] < ids[j]; }
      j := j - 1;
    }
  }

  // A change that touches no hand, trick, bid or undealt card.
  lemma AcceptedOnly(deal: Deal, accepted: seq<nat>, config: Config)
    requires ConfigFormed(config) && TricksFormed(Tricks(deal)) && DealAudit(deal, config) && Settled(deal)
    requires AcceptedOk(accepted, config.count)
    ensures var d := deal.(accepted := accepted);
            TricksFormed(Tricks(d)) && DealAudit(d, config) && Settled(d) && (Unplayed(deal) ==> Unplayed(d))
  {
    hide FullDeck, TrickFormed, AcceptedOk, ReplayTricks, Rebuilt, Sets, Advance, Around, EachOf, LeftOver;
    var d := deal.(accepted := accepted);
    assert Tricks(d) == Tricks(deal);
    assert Opening(d) == Opening(deal);
    assert forall i :: 0 <= i < |d.players| ==> BidAt(d, i) == BidAt(deal, i);
  }

  lemma {:induction false} AcceptedFew(ids: seq<nat>, n: nat)
    requires AcceptedOk(ids, n)
    ensures |ids| <= n
  {
    var i := 0;
    while i < |ids|
      invariant i <= |ids| && forall k :: 0 <= k < i ==> ids[k] >= k + 1
    {
      if i > 0 { assert ids[i - 1] < ids[i]; }
      i := i + 1;
    }
    assert ids != [] ==> ids[|ids| - 1] >= |ids|;
  }

  lemma ReviewKeeps(s: Match, id: nat, action: Action)
    requires Inv(s) && s.currentDeal.Some? && s.phase == HandReview
    requires 1 <= id <= s.config.count && 1 <= id <= |s.currentDeal.value.players|
    ensures Keeps(ApplyReview(s, s.currentDeal.value, id, action))
  {
    hide ArchiveOk, TricksFormed, FullDeck, DealAudit, Settled;
    var deal := s.currentDeal.value;
    HandNotEmpty(deal, s.config, id);
    var r := ApplyReview(s, deal, id, action);
    if r.Accepted? {
      var t := r.next;
      if action.ClaimRedeal? {
        NewCurrent(s, t);
      } else {
        AuditedFacts(deal, s.config);
        InsertIdKeeps(deal.accepted, id, s.config.count);
        var accepted := InsertId(deal.accepted, id);
        AcceptedOnly(deal, accepted, s.config);
        AcceptedFew(accepted, s.config.count);
        if |accepted| == s.config.count { AllAccepted(accepted, s.config.count); }
        NoBidsSome(t.currentDeal.value);
        NewCurrent(s, t);
      }
    }
  }

  lemma HandNotEmpty(deal: Deal, config: Config, id: nat)
    requires ConfigFormed(config) && TricksFormed(Tricks(deal)) && DealAudit(deal, config) && Unplayed(deal)
    requires 1 <= id <= |deal.players|
    ensures deal.players[id - 1].hand != []
  {
    hide FullDeck, BidAt, ReplayTricks;
    assert Tricks(deal) == [];
    assert |Rebuilt(deal.players, Tricks(deal))[id - 1]| == TricksPerDeal(config);
    NothingPlayed(deal.players);
  }

  // ---- bidding

  function Bidders(players: seq<PlayerDeal>): set<nat> {
    set q: nat | q < |players| && players[q].bid.Some?
  }

  lemma {:induction false} BiddersCount(players: seq<PlayerDeal>)
    ensures |Bidders(players)| == BidCount(players)
  {
    if players == [] {
      assert Bidders(players) == {};
    } else {
      var init, last := players[..|players| - 1], |players| - 1;
      BiddersCount(init);
      if players[last].bid.Some? {
        assert Bidders(players) == Bidders(init) + {last};
      } else {
        assert Bidders(players) == Bidders(init);
      }
    }
  }

  // A downward closed set of small numbers is an initial segment.
  lemma {:induction false} InitialSegment(k: set<nat>, n: nat)
    requires forall i :: i in k ==> i < n
    requires forall i, j :: i in k && 0 <= j < i ==> j in k
    ensures forall i: nat :: i in k <==> i < |k|
  {
    if n == 0 {
      assert k == {};
    } else if n - 1 in k {
      InitialSegment(k - {n - 1}, n - 1);
      assert |k - {n - 1}| == |k| - 1;
      forall i: nat | i < n ensures i in k { if i < n - 1 { assert i in k - {n - 1}; } }
      assert n - 1 !in k - {n - 1};
      assert |k - {n - 1}| !in k - {n - 1};
    } else {
      InitialSegment(k, n - 1);
    }
  }

  function OrderSet(deal: Deal, n: nat): set<nat>
    requires |deal.players| == n && 1 <= deal.dealer <= n
  {
    set i: nat | i < n && BidAt(deal, i).Some?
  }

  // As many places in the order have bid as players have.
  lemma OrderCount(deal: Deal, n: nat)
    requires |deal.players| == n && 1 <= deal.dealer <= n
    ensures |OrderSet(deal, n)| == BidCount(deal.players)
  {
    hide SeatAt, HandIndex, BidCount, BidAt;
    var order := OrderSet(deal, n);
    var seat: map<nat, nat> := map i | i in order :: SeatAt(deal.dealer, n, i);
    forall i | i in order ensures HandIndex(deal.dealer, n, seat[i] + 1) == i && seat[i] in Bidders(deal.players) {
      SeatOfPlace(deal, n, i);
    }
    ImageSize(seat);
    forall q | q in Bidders(deal.players) ensures q in seat.Values {
      var i := HandIndex(deal.dealer, n, q + 1);
      PlaceOfSeat(deal, n, q);
      assert i in order && seat[i] == q;
    }
    assert seat.Values == Bidders(deal.players);
    assert seat.Keys == order;
    BiddersCount(deal.players);
  }

  lemma SeatOfPlace(deal: Deal, n: nat, i: nat)
    requires |deal.players| == n && 1 <= deal.dealer <= n && i < n
    ensures HandIndex(deal.dealer, n, SeatAt(deal.dealer, n, i) + 1) == i
    ensures BidAt(deal, i) == deal.players[SeatAt(deal.dealer, n, i)].bid
  {
    SameIndex(deal.dealer, n, i);
  }

  lemma PlaceOfSeat(deal: Deal, n: nat, q: nat)
    requires |deal.players| == n && 1 <= deal.dealer <= n && q < n
    ensures var i := HandIndex(deal.dealer, n, q + 1); SeatAt(deal.dealer, n, i) == q && BidAt(deal, i) == deal.players[q].bid
  {
    IndexSeat(deal.dealer, n, q + 1);
  }

  function SeatAt(dealer: nat, n: nat, i: nat): (q: nat)
    requires 1 <= dealer <= n
    ensures q < n
  {
    Advance(dealer, n, i + 1) - 1
  }

  lemma BidAtSeat(deal: Deal, n: nat, i: nat)
    requires |deal.players| == n && 1 <= deal.dealer <= n
    ensures BidAt(deal, i) == deal.players[SeatAt(deal.dealer, n, i)].bid
  {
  }

  // The players who have bid are the first ones after the dealer.
  lemma BidOrder(deal: Deal, n: nat)
    requires |deal.players| == n && 1 <= deal.dealer <= n
    requires forall i, j :: 0 <= i < j < n && BidAt(deal, i).None? ==> BidAt(deal, j).None?
    ensures forall i :: 0 <= i < n ==> (BidAt(deal, i).Some? <==> i < BidCount(deal.players))
  {
    hide Advance, HandIndex, BidCount, BidAt;
    OrderCount(deal, n);
    InitialSegment(OrderSet(deal, n), n);
    forall i: nat | i < n ensures BidAt(deal, i).Some? <==> i < BidCount(deal.players) {
      assert i in OrderSet(deal, n) <==> BidAt(deal, i).Some?;
    }
  }

  lemma BidAtAfter(deal: Deal, n: nat, c: nat, id: nat, amount: int, i: nat)
    requires RosterOk(deal.players, n) && n > 0 && 1 <= deal.dealer <= n && c < n && i < n
    requires id == Advance(deal.dealer, n, c + 1)
    ensures BidAt(deal.(players := WithBid(deal.players, id, amount)), i) == if i == c then Some(amount)
            else BidAt(deal, i)
  {
    hide Advance, HandIndex;
    SameIndex(deal.dealer, n, i);
    SameIndex(deal.dealer, n, c);
  }

  lemma NewBid(deal: Deal, n: nat, id: nat, amount: int)
    requires RosterOk(deal.players, n) && n > 0 && 1 <= deal.dealer <= n
    requires forall i, j :: 0 <= i < j < n && BidAt(deal, i).None? ==> BidAt(deal, j).None?
    requires !AllBid(deal.players) && id == Advance(deal.dealer, n, 1 + BidCount(deal.players))
    ensures var d := deal.(players := WithBid(deal.players, id, amount));
            && BidCount(deal.players) < n && deal.players[id - 1].bid.None?
            && d.players == deal.players[id - 1 := deal.players[id - 1].(bid := Some(amount))]
            && (forall i :: 0 <= i < n ==> (BidAt(d, i).Some? <==> i <= BidCount(deal.players)))
            && (AllBid(d.players) <==> BidCount(deal.players) == n - 1)
  {
    var d := deal.(players := WithBid(deal.players, id, amount));
    var c := BidCount(deal.players);
    BidOrder(deal, n);
    OrderCovers(deal, n);
    hide Advance, HandIndex, BidCount, BidAt, AllBid;
    assert BidAt(deal, c).None? && c < n by {
      var i :| 0 <= i < n && BidAt(deal, i).None?;
      assert !(i < c);
    }
    BidAtSeat(deal, n, c);
    WithBidIs(deal.players, n, id, amount);
    forall i | 0 <= i < n ensures BidAt(d, i) == if i == c then Some(amount) else BidAt(deal, i) {
      BidAtAfter(deal, n, c, id, amount, i);
    }
    LastBid(d, n, c);
  }

  lemma LastBid(d: Deal, n: nat, c: nat)
    requires |d.players| == n && 1 <= d.dealer <= n && c < n
    requires forall i :: 0 <= i < n ==> (BidAt(d, i).Some? <==> i <= c)
    ensures AllBid(d.players) <==> c == n - 1
  {
    hide Advance, HandIndex, BidAt, AllBid;
    OrderCovers(d, n);
    if c < n - 1 { assert BidAt(d, n - 1).None?; }
  }

  lemma WithBidIs(players: seq<PlayerDeal>, n: nat, id: nat, amount: int)
    requires RosterOk(players, n) && 1 <= id <= n
    ensures WithBid(players, id, amount) == players[id - 1 := players[id - 1].(bid := Some(amount))]
  {
  }

  // Every player has a place in the bidding order.
  lemma OrderCovers(deal: Deal, n: nat)
    requires |deal.players| == n && 1 <= deal.dealer <= n
    ensures AllBid(deal.players) <==> forall i :: 0 <= i < n ==> BidAt(deal, i).Some?
  {
    hide Advance, HandIndex;
    if AllBid(deal.players) {
      forall i | 0 <= i < n ensures BidAt(deal, i).Some? {}
    }
    if forall i :: 0 <= i < n ==> BidAt(deal, i).Some? {
      forall q | 0 <= q < n ensures deal.players[q].bid.Some? {
        IndexSeat(deal.dealer, n, q + 1);
        assert BidAt(deal, HandIndex(deal.dealer, n, q + 1)).Some?;
      }
    }
  }

  // A deal with new bids and, once all are in, an empty first trick.
  lemma BiddingDeal(deal: Deal, d: Deal, config: Config)
    requires ConfigFormed(config) && TricksFormed(Tricks(deal)) && DealAudit(deal, config) && Settled(deal)
             && Tricks(deal) == []
    requires d == deal.(players := d.players, currentTrick := d.currentTrick)
    requires RosterOk(d.players, config.count) && BidsOk(d, TricksPerDeal(config))
    requires forall q :: 0 <= q < config.count ==> d.players[q].hand == deal.players[q].hand
    requires d.currentTrick.Some? ==> d.currentTrick.value == Trick(config.count,
             Advance(deal.dealer, config.count, 1), [])
    ensures TricksFormed(Tricks(d)) && DealAudit(d, config) && Settled(d)
  {
    hide FullDeck, BidAt, BidsOk;
    var tricks := Tricks(d);
    assert deal.completed == [];
    if d.currentTrick.Some? {
      assert tricks == [d.currentTrick.value];
      assert tricks[..0] == [];
      assert AllPlays(tricks) == AllPlays([]) + [];
    }
    assert AllPlays(tricks) == AllPlays(Tricks(deal));
    assert Rebuilt(d.players, tricks) == Rebuilt(deal.players, Tricks(deal));
    assert Opening(d) == Opening(deal);
    assert HandSets(d.players) == HandSets(deal.players);
  }

  // What the invariant says of a deal that is being bid on.
  lemma BiddingDealFacts(s: Match)
    requires Inv(s) && s.currentDeal.Some? && s.phase == Bidding
    ensures var deal := s.currentDeal.value; var n := s.config.count;
            && ConfigFormed(s.config) && RosterOk(deal.players, n) && 1 <= deal.dealer <= n
            && (forall i, j :: 0 <= i < j < n && BidAt(deal, i).None? ==> BidAt(deal, j).None?)
            && !AllBid(deal.players) && deal.completed == [] && deal.currentTrick.None? && s.preparation.None?
            && TricksFormed(Tricks(deal)) && DealAudit(deal, s.config) && Settled(deal)
               && BidsOk(deal, TricksPerDeal(s.config))
            && Formed(s) && s.initialDealer > 0 && CurrentOk(s)
  {
    hide ArchiveOk, TricksFormed, FullDeck, Settled, ReplayTricks, HandsOk, TricksOk, AcceptedOk, BidAt, Around, EachOf;
  }

  lemma BidTurn(s: Match)
    requires s.config.count > 0 && s.phase == Bidding && s.currentDeal.Some? && s.preparation.None?
    requires s.currentDeal.value.dealer > 0
    ensures CurrentOf(s) == Some(Advance(s.currentDeal.value.dealer, s.config.count,
            1 + BidCount(s.currentDeal.value.players)))
  {
  }

  lemma BidKeeps(s: Match, id: nat, amount: int)
    requires Inv(s) && s.currentDeal.Some? && s.phase == Bidding && CurrentOf(s) == Some(id)
    requires 1 <= id <= s.config.count && 1 <= id <= |s.currentDeal.value.players|
    ensures Keeps(ApplyBid(s, s.currentDeal.value, id, amount))
  {
    hide Inv, CurrentOk, Formed, DealAudit, TricksFormed, Settled, BidsOk, BidCount, BidAt, Advance,
      CurrentOf, EachOf, Tricks, AllBid;
    BiddingDealFacts(s);
    BidTurn(s);
    var deal := s.currentDeal.value;
    var n := s.config.count;
    NewBid(deal, n, id, amount);
    var r := ApplyBid(s, deal, id, amount);
    if r.Accepted? {
      var t := r.next;
      var d := t.currentDeal.value;
      NoTricks(deal);
      NoTricks(d);
      forall i | 0 <= i < n ensures BidAt(d, i)
          == BidAt(deal.(players := d.players), i) { SameBid(d, deal.(players := d.players), i); }
      assert d.currentTrick.Some? ==> AllBid(d.players);
      BidsStillOk(deal, d, n, id, amount, TricksPerDeal(s.config));
      BiddingDeal(deal, d, s.config);
      BidCurrent(s, t);
      NewCurrent(s, t);
    }
  }

  lemma SameBid(d: Deal, e: Deal, i: nat)
    requires d.players == e.players && d.dealer == e.dealer && d.dealer > 0 && i < |d.players|
    ensures BidAt(d, i) == BidAt(e, i)
  {
  }

  lemma NoTricks(deal: Deal)
    ensures deal.currentTrick.None? && deal.completed == [] ==> Tricks(deal) == []
  {
  }

  lemma BidCurrent(s: Match, t: Match)
    requires Formed(s) && s.initialDealer > 0 && CurrentOk(s) && s.phase == Bidding && s.currentDeal.Some?
    requires t == s.(currentDeal := t.currentDeal, phase := t.phase, revision := t.revision) && t.currentDeal.Some?
    requires TricksFormed(Tricks(t.currentDeal.value)) && DealAudit(t.currentDeal.value, s.config)
    requires var d := t.currentDeal.value;
             && d == s.currentDeal.value.(players := d.players, currentTrick := d.currentTrick)
             && if t.phase == Playing then d.currentTrick.Some?
                else t.phase == Bidding && d.currentTrick.None? && !AllBid(d.players)
    ensures Formed(t) && CurrentOk(t)
  {
    hide DealAudit, TricksFormed, AllBid, Unplayed;
  }

  lemma BidsStillOk(deal: Deal, d: Deal, n: nat, id: nat, amount: int, each: nat)
    requires RosterOk(deal.players, n) && n > 0 && 1 <= deal.dealer <= n && BidsOk(deal, each) && 1 <= amount <= each
    requires 1 <= id <= n && d.players == deal.players[id - 1 := deal.players[id - 1].(bid := Some(amount))]
    requires d.dealer == deal.dealer && (Tricks(d) != [] ==> AllBid(d.players))
    requires forall i :: 0 <= i < n ==> (BidAt(d, i).Some? <==> i <= BidCount(deal.players))
    ensures BidsOk(d, each) && RosterOk(d.players, n)
  {
    hide Advance, HandIndex, BidCount;
    OrderCovers(d, n);
  }

  // ---- playing a card

  lemma {:induction false} DroppedIs(hand: seq<Card>, card: Card)
    requires NoDup(hand) && card in hand
    ensures |Dropped(hand, card)| == |hand| - 1
  {
    var rest := hand[1..];
    assert hand == [hand[0]] + rest;
    NoDupConcat([hand[0]], rest);
    if hand[0] == card {
      assert card in Elems([hand[0]]);
      DroppedNone(rest, card);
    } else {
      DroppedIs(rest, card);
    }
  }

  lemma {:induction false} DroppedNone(hand: seq<Card>, card: Card)
    requires card !in hand
    ensures Dropped(hand, card) == hand
  {
    if hand != [] {
      DroppedNone(hand[1..], card);
      assert hand == [hand[0]] + hand[1..];
    }
  }

  lemma HandDistinct(deal: Deal, n: nat, each: nat, q: nat)
    requires n > 0 && HandsOk(deal, n, each) && q < |deal.players|
    ensures NoDup(deal.players[q].hand)
  {
    hide FullDeck, Flat, CardsBy;
    HandsDistinct(deal, n, each);
    NoDupConcat(deal.players[q].hand, CardsBy(AllPlays(Tricks(deal)), q + 1));
  }

  // One more legal play keeps a trick well formed.
  lemma TrickGrows(t: Trick, hand: seq<Card>, id: nat, card: Card)
    requires TrickFormed(t) && ValidatePlay(hand, t, id, card) == Ok
    ensures TrickFormed(t.(plays := t.plays + [Play(id, card)])) && card in hand
  {
    hide LegalCards, Legal, Turn;
    var after := t.plays + [Play(id, card)];
    assert PlayedCards(after) == PlayedCards(t.plays) + [card];
    forall i | 0 <= i < |t.plays| ensures PlayedCards(t.plays)[i] != card {}
  }

  lemma TricksOf(deal: Deal, t: Trick)
    requires deal.currentTrick == Some(t)
    ensures Tricks(deal) == deal.completed + [t]
    ensures AllPlays(Tricks(deal)) == AllPlays(deal.completed) + t.plays
  {
    AllPlaysNext(deal.completed, t);
  }

  // The rebuilt hands do not change when a held card is played.
  lemma RebuiltSame(deal: Deal, n: nat, each: nat, id: nat, card: Card)
    requires n > 0 && HandsOk(deal, n, each) && RosterOk(deal.players, n) && 1 <= id <= n
    requires deal.currentTrick.Some? && card in deal.players[id - 1].hand
    ensures var d := Played(deal, id, card);
            var before, after := Rebuilt(deal.players, Tricks(deal)), Rebuilt(d.players, Tricks(d));
            forall q :: 0 <= q < n ==> |after[q]| == |before[q]| && Elems(after[q]) == Elems(before[q])
  {
    hide CardsBy, AllPlays, Flat, FullDeck;
    var d := Played(deal, id, card);
    var t, t' := deal.currentTrick.value, d.currentTrick.value;
    TricksOf(deal, t);
    TricksOf(d, t');
    var plays := AllPlays(Tricks(deal));
    assert AllPlays(Tricks(d)) == plays + [Play(id, card)];
    forall q | 0 <= q < n
      ensures |Rebuilt(d.players, Tricks(d))[q]| == |Rebuilt(deal.players, Tricks(deal))[q]|
      ensures Elems(Rebuilt(d.players, Tricks(d))[q]) == Elems(Rebuilt(deal.players, Tricks(deal))[q])
    {
      CardsByNext(plays, Play(id, card), q + 1);
      if q + 1 == id {
        HandDistinct(deal, n, each, q);
        DroppedIs(deal.players[q].hand, card);
      }
    }
  }

  lemma HandsStillOk(deal: Deal, d: Deal, n: nat, each: nat)
    requires n > 0 && HandsOk(deal, n, each) && d.undealt == deal.undealt && |d.players| == |deal.players|
    requires var before, after := Rebuilt(deal.players, Tricks(deal)), Rebuilt(d.players, Tricks(d));
             forall q :: 0 <= q < |before| ==> |after[q]| == |before[q]| && Elems(after[q]) == Elems(before[q])
    ensures HandsOk(d, n, each)
  {
    hide CardsBy, AllPlays, FullDeck, Tricks;
    SameDeck(deal.undealt, Rebuilt(deal.players, Tricks(deal)), Rebuilt(d.players, Tricks(d)), each);
  }

  lemma SameOpening(deal: Deal, d: Deal)
    requires |deal.players| > 0 && |d.players| == |deal.players| && deal.dealer > 0 && d.dealer == deal.dealer
    requires var before, after := Rebuilt(deal.players, Tricks(deal)), Rebuilt(d.players, Tricks(d));
             forall q :: 0 <= q < |before| ==> Elems(after[q]) == Elems(before[q])
    ensures Opening(d) == Opening(deal)
  {
    hide CardsBy, AllPlays, Tricks;
    assert Opening(d).hands == Opening(deal).hands;
  }

  // The last trick, as far as the replay of the whole list is concerned.
  lemma LastTrick(start: Table, completed: seq<Trick>, t: Trick)
    requires |start.hands| > 0 && TricksFormed(completed) && SameTable(completed, |start.hands|)
    requires TrickFormed(t) && t.count == |start.hands|
    ensures TricksFormed(completed + [t]) && SameTable(completed + [t], |start.hands|)
    ensures ReplayTricks(start, completed + [t]) ==
            match ReplayTricks(start, completed) case None => None case Some(before) => ReplayTrick(before, t)
  {
    hide TrickFormed, ReplayTrick;
    assert (completed + [t])[..|completed|] == completed;
  }

  lemma LastPlay(hands: seq<set<Card>>, leader: nat, plays: seq<Play>, play: Play)
    requires |hands| > 0 && leader > 0 && Seated(plays, |hands|) && 1 <= play.player <= |hands|
    requires var before := ReplayPlays(hands, leader, plays);
             before.Some? && PlayAllowed(before.value[play.player - 1], Trick(|hands|, leader, plays),
                 play.player, play.card)
    ensures Seated(plays + [play], |hands|)
    ensures var before := ReplayPlays(hands, leader, plays).value;
            ReplayPlays(hands, leader, plays + [play]) ==
            Some(before[play.player - 1 := before[play.player - 1] - {play.card}])
  {
    hide PlayAllowed;
    assert (plays + [play])[..|plays|] == plays;
  }

  // The replay of one more play: the audit's loop, seen from the reducer.
  lemma TrickReplayGrows(table: Table, t: Trick, id: nat, card: Card)
    requires |table.hands| > 0 && TrickFormed(t) && t.count == |table.hands| && !Complete(t)
    requires TrickFormed(t.(plays := t.plays + [Play(id, card)]))
    requires var end := ReplayTrick(table, t);
             end.Some? && 1 <= id <= |table.hands| && PlayAllowed(end.value.hands[id - 1],
                 Trick(t.count, t.leader, t.plays), id, card)
    ensures var t' := t.(plays := t.plays + [Play(id, card)]);
            var end := ReplayTrick(table, t).value;
            && end.leader == t.leader
            && ReplayTrick(table, t') ==
               Some(Table(end.hands[id - 1 := end.hands[id - 1] - {card}], if Complete(t') then Winner(t')
                   else t.leader))
  {
    hide PlayAllowed, TrickFormed, Winner, ReplayPlays;
    FormedSeated(t);
    FormedSeated(t.(plays := t.plays + [Play(id, card)]));
    LastPlay(table.hands, t.leader, t.plays, Play(id, card));
  }

  lemma ReplayGrows(start: Table, completed: seq<Trick>, t: Trick, id: nat, card: Card)
    requires |start.hands| > 0 && TricksFormed(completed + [t]) && SameTable(completed + [t], |start.hands|)
    requires TrickFormed(t.(plays := t.plays + [Play(id, card)]))
    requires var end := ReplayTricks(start, completed + [t]);
             end.Some? && 1 <= id <= |start.hands| && !Complete(t)
             && PlayAllowed(end.value.hands[id - 1], Trick(t.count, t.leader, t.plays), id, card)
    ensures var t' := t.(plays := t.plays + [Play(id, card)]);
            var end := ReplayTricks(start, completed + [t]).value;
            && TricksFormed(completed + [t']) && SameTable(completed + [t'], |start.hands|)
            && ReplayTricks(start, completed + [t']) ==
               Some(Table(end.hands[id - 1 := end.hands[id - 1] - {card}], if Complete(t') then Winner(t')
                   else t.leader))
  {
    var t' := t.(plays := t.plays + [Play(id, card)]);
    SplitTricks(completed, t, |start.hands|);
    hide PlayAllowed, TrickFormed, Winner, ReplayTricks, ReplayTrick, TricksFormed, SameTable, Complete;
    LastTrick(start, completed, t);
    LastTrick(start, completed, t');
    TrickReplayGrows(ReplayTricks(start, completed).value, t, id, card);
  }

  lemma SplitTricks(completed: seq<Trick>, t: Trick, n: nat)
    requires TricksFormed(completed + [t]) && SameTable(completed + [t], n)
    ensures TricksFormed(completed) && SameTable(completed, n) && TrickFormed(t) && t.count == n
  {
    hide TrickFormed;
    assert (completed + [t])[|completed|] == t;
    forall i | 0 <= i < |completed| ensures TrickFormed(completed[i]) && completed[i].count == n {
      assert (completed + [t])[i] == completed[i];
    }
  }

  lemma PlayedOk(deal: Deal, config: Config, id: nat, card: Card)
    requires ConfigFormed(config) && TricksFormed(Tricks(deal)) && DealAudit(deal, config) && Settled(deal)
    requires deal.currentTrick.Some? && 1 <= id <= config.count
    requires ValidatePlay(deal.players[id - 1].hand, deal.currentTrick.value, id, card) == Ok
    ensures var d := Played(deal, id, card);
            var t := d.currentTrick.value;
            && TrickFormed(t) && TricksFormed(Tricks(d)) && SameTable(Tricks(d), config.count)
            && RosterOk(d.players, config.count) && HandsOk(d, config.count, TricksPerDeal(config))
            && Opening(d) == Opening(deal)
            && ReplayTricks(Opening(d), Tricks(d)) ==
               Some(Table(HandSets(d.players), if Complete(t) then Winner(t) else t.leader))
  {
    hide ReplayTricks, FullDeck, CardsBy, AllPlays, ValidatePlay, Winner, BidsOk, Legal;
    var n, each := config.count, TricksPerDeal(config);
    var t := deal.currentTrick.value;
    var d := Played(deal, id, card);
    assert TrickFormed(t) by { assert Tricks(deal)[|deal.completed|] == t; }
    TrickGrows(t, deal.players[id - 1].hand, id, card);
    HandDistinct(deal, n, each, id - 1);
    ValidateIsAllowed(deal.players[id - 1].hand, t, id, card);
    RebuiltSame(deal, n, each, id, card);
    HandsStillOk(deal, d, n, each);
    SameOpening(deal, d);
    hide HandsOk, Rebuilt, Opening;
    TricksOf(deal, t);
    TricksOf(d, d.currentTrick.value);
    assert t == Trick(t.count, t.leader, t.plays);
    ReplayGrows(Opening(deal), deal.completed, t, id, card);
    PlayedSets(deal.players, n, id, card);
  }

  lemma PlayedSets(players: seq<PlayerDeal>, n: nat, id: nat, card: Card)
    requires RosterOk(players, n) && 1 <= id <= n
    ensures HandSets(WithoutCard(players, id, card)) ==
            HandSets(players)[id - 1 := HandSets(players)[id - 1] - {card}]
    ensures RosterOk(WithoutCard(players, id, card), n)
  {
    hide Dropped;
    var after := WithoutCard(players, id, card);
    forall q | 0 <= q < n
      ensures HandSets(after)[q] == HandSets(players)[id - 1 := HandSets(players)[id - 1] - {card}][q]
    {
      if q == id - 1 {
        assert Elems(Dropped(players[q].hand, card)) == Elems(players[q].hand) - {card};
      }
    }
  }
}
