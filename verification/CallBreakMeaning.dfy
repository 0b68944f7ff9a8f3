// What the Call Break rules mean, in suits, ranks and seats.
module CallBreakMeaning {
  import opened Prelude
  import opened Cards
  import opened Dealing
  import opened CallBreakRules
  import opened CallBreakDeals
  import opened CallBreakMatch
  import opened CallBreakInvariant
  import opened CallBreakPlay
  import opened CallBreakRuns
  import opened CallBreakProgress

  // ---- who wins a trick

  predicate SpadePlayed(plays: seq<Play>) {
    exists i :: 0 <= i < |plays| && plays[i].card.suit == Spades
  }

  // The suit that decides the trick.
  function Ruling(plays: seq<Play>): Suit
    requires plays != []
  {
    if SpadePlayed(plays) then Spades else plays[0].card.suit
  }

  // Every card of the suit among the plays is lower than this one.
  predicate Above(card: Card, plays: seq<Play>) {
    forall i :: 0 <= i < |plays| && plays[i].card.suit == card.suit ==> plays[i].card.rank < card.rank
  }

  // The highest spade wins if one was played, else the highest card of the led suit.
  lemma {:induction false} WinnerMeans(plays: seq<Play>, j: nat)
    requires plays != [] && NoDup(PlayedCards(plays)) && j < |plays|
    ensures j == WinnerIndex(plays) <==>
            && plays[j].card.suit == Ruling(plays)
            && forall i :: 0 <= i < |plays| && i != j && plays[i].card.suit == Ruling(plays) ==>
                 plays[i].card.rank < plays[j].card.rank
  {
    WinnerIsUnique(plays);
    var w, led := WinnerIndex(plays), plays[0].card.suit;
    if SpadePlayed(plays) {
      var i :| 0 <= i < |plays| && plays[i].card.suit == Spades;
      assert i != w ==> Beats(plays[w].card, plays[i].card, led);
    }
    assert plays[w].card.suit == Ruling(plays);
    forall i | 0 <= i < |plays| && i != w && plays[i].card.suit == Ruling(plays)
      ensures plays[i].card.rank < plays[w].card.rank
    {
      assert Beats(plays[w].card, plays[i].card, led);
    }
  }

  // A card takes the lead exactly when it is a spade on a lead without spades, or
  // is above every card of the suit that decides the trick.
  lemma {:induction false} TakesMeans(card: Card, plays: seq<Play>)
    requires plays != [] && NoDup(PlayedCards(plays))
    ensures Wins(card, plays) <==>
            (card.suit == Spades || card.suit == Ruling(plays)) && Above(card, plays)
  {
    var w := WinnerIndex(plays);
    WinnerMeans(plays, w);
    WinnerIsUnique(plays);
    if card.suit == Spades && Ruling(plays) != Spades {
      assert plays[w].card.suit != Spades;
    }
    if card.suit == plays[w].card.suit {
      assert card.rank > plays[w].card.rank ==> Above(card, plays);
      assert Above(card, plays) ==> card.rank > plays[w].card.rank;
    }
  }

  // ---- which cards may be played

  predicate Holds(hand: set<Card>, suit: Suit) {
    exists c :: c in hand && c.suit == suit
  }

  predicate HoldsAbove(hand: set<Card>, suit: Suit, plays: seq<Play>) {
    exists c :: c in hand && c.suit == suit && Above(c, plays)
  }

  // The rule of the game. Whoever holds the led suit follows it, and with a card
  // above all of that suit if there is one, unless a spade has taken the lead of
  // another suit. Whoever does not plays a spade above the spades played, if one
  // is held, and otherwise anything.
  predicate MayPlay(hand: set<Card>, plays: seq<Play>, card: Card) {
    && card in hand
    && (plays != [] ==>
          var led := plays[0].card.suit;
          if Holds(hand, led) then
            card.suit == led
            && ((led == Spades || !SpadePlayed(plays)) && HoldsAbove(hand, led, plays) ==> Above(card, plays))
          else HoldsAbove(hand, Spades, plays) ==> card.suit == Spades && Above(card, plays))
  }

  lemma {:induction false} LegalMeans(hand: set<Card>, plays: seq<Play>, card: Card)
    requires NoDup(PlayedCards(plays))
    ensures card in Legal(hand, plays) <==> MayPlay(hand, plays, card)
  {
    hide Wins, Above, NoDup, PlayedCards, SpadePlayed;
    if plays != [] {
      var led := plays[0].card.suit;
      forall c ensures Wins(c, plays) <==> (c.suit == Spades || c.suit == Ruling(plays)) && Above(c, plays) {
        TakesMeans(c, plays);
      }
      var following, spades := OfSuit(hand, led), OfSuit(hand, Spades);
      assert following != {} <==> Holds(hand, led) by {
        if Holds(hand, led) {
          var c :| c in hand && c.suit == led;
          assert c in following;
        }
      }
      assert Winning(spades, plays) != {} <==> HoldsAbove(hand, Spades, plays) by {
        if HoldsAbove(hand, Spades, plays) {
          var c :| c in hand && c.suit == Spades && Above(c, plays);
          assert c in Winning(spades, plays);
        }
        if Winning(spades, plays) != {} {
          var c :| c in Winning(spades, plays);
          assert c in hand && c.suit == Spades && Above(c, plays);
        }
      }
      assert Winning(following, plays) != {} <==> led == Ruling(plays) && HoldsAbove(hand, led, plays) by {
        if led == Ruling(plays) && HoldsAbove(hand, led, plays) {
          var c :| c in hand && c.suit == led && Above(c, plays);
          assert c in Winning(following, plays);
        }
        if Winning(following, plays) != {} {
          var c :| c in Winning(following, plays);
          assert c in hand && c.suit == led && Above(c, plays);
          SpadesRule(plays);
        }
      }
      SpadesRule(plays);
    }
  }

  lemma SpadesRule(plays: seq<Play>)
    requires plays != []
    ensures plays[0].card.suit == Spades ==> Ruling(plays) == Spades
    ensures Ruling(plays) == plays[0].card.suit <==> plays[0].card.suit == Spades || !SpadePlayed(plays)
  {
  }

  // ---- going round the table

  function Left(id: nat, n: nat): nat {
    if id == n then 1 else id + 1
  }

  // Play and dealing go round to the left, one seat at a time.
  lemma GoesLeft(id: nat, n: nat, k: nat)
    requires 1 <= id <= n && n <= 5
    ensures Advance(id, n, 0) == id && Advance(id, n, k + 1) == Left(Advance(id, n, k), n)
    ensures Turn(n, id, k) == Advance(id, n, k)
  {
    NextAround(id - 1 + k, n);
  }

  lemma {:induction false} NextAround(x: nat, n: nat)
    requires n > 0
    ensures Around(x + 1, n) == if Around(x, n) == n - 1 then 0 else Around(x, n) + 1
  {
    if x >= n { NextAround(x - n, n); }
  }

  lemma LeftSteps(id: nat, n: nat)
    requires 1 <= id <= n
    ensures Advance(id, n, 1) == Left(id, n)
  {
  }

  // ---- the deck

  // The card at the position comes first, and what lay above it goes underneath.
  lemma CutMeans<T>(items: seq<T>, position: nat, i: nat)
    requires position <= |items| && i < |items|
    ensures Cut(items, position)[i] == if i + position < |items| then items[i + position]
                                       else items[i + position - |items|]
  {
  }

  // Cards go out one at a time from the dealer's left: the i-th card of a round is
  // the next card of the player i + 1 seats on. The rest is not dealt.
  lemma DealtInTurn(deck: seq<Card>, config: Config, number: nat, attempt: nat, dealer: nat, round: nat, i: nat)
    requires ConfigFormed(config) && FullDeck(deck) && 1 <= dealer <= config.count
    requires round < TricksPerDeal(config) && i < config.count
    ensures config.count * TricksPerDeal(config) <= |deck|
    ensures var deal := NewDeal(deck, config, number, attempt, dealer);
            var hand := deal.players[Advance(dealer, config.count, i + 1) - 1].hand;
            && |hand| == TricksPerDeal(config) && config.count * round + i < |deck|
            && hand[round] == deck[config.count * round + i]
            && deal.undealt == deck[config.count * TricksPerDeal(config)..]
  {
    hide FullDeck, Advance, HandIndex;
    DeckSize(deck);
    SameIndex(dealer, config.count, i);
    var n, each := config.count, TricksPerDeal(config);
    RowFits(round, each, n);
    assert StrideAt(deck, i, n, each, round) == deck[round * n + i];
    assert n == 4 || n == 5;
  }

  // ---- the table

  // Four players are dealt 13 cards each, five are dealt 10, and two are left over.
  lemma TableMeans(c: Config)
    ensures ConfigFormed(c) <==> c.count in {4, 5} && c.policy.weakHandThreshold in {11, 12}
    ensures ConfigFormed(c) ==> c.count * TricksPerDeal(c) + LeftOver(c.count) == 52 && LeftOver(c.count) < c.count
  {
  }

  // ---- redeals

  // A hand may be given back when weak hands count and every card is at most the
  // threshold, or missing spades count and no card is a spade.
  lemma RedealMeans(hand: seq<Card>, policy: Policy)
    ensures RedealAllowed(hand, policy) <==>
            || (policy.weakHandEnabled && forall c :: c in hand ==> c.rank <= policy.weakHandThreshold)
            || (policy.noSpadesEnabled && !Holds(Elems(hand), Spades))
    ensures RedealAllowed(hand, policy) ==> RedealEnabled(policy)
  {
    assert (forall c :: c in hand ==> c.rank <= policy.weakHandThreshold) <==>
           forall i :: 0 <= i < |hand| ==> hand[i].rank <= policy.weakHandThreshold;
    assert Holds(Elems(hand), Spades) <==> exists i :: 0 <= i < |hand| && hand[i].suit == Spades by {
      if i :| 0 <= i < |hand| && hand[i].suit == Spades { assert hand[i] in Elems(hand); }
    }
  }

  // ---- scores

  // Ten for every trick bid and one for every trick beyond it; a failed bid costs
  // what it would have earned.
  lemma ScoreMeans(bid: int, tricks: int)
    ensures ScoreOf(bid, bid) == 10 * bid
    ensures tricks >= bid ==> ScoreOf(bid, tricks + 1) == ScoreOf(bid, tricks) + 1
    ensures tricks < bid ==> ScoreOf(bid, tricks) == -ScoreOf(bid, bid)
  {
  }

  // Which tricks a player won.
  ghost function WonTricks(tricks: seq<Trick>, id: nat): set<nat> {
    set k: nat | k < |tricks| && Won(tricks[k], id)
  }

  predicate Won(t: Trick, id: nat) {
    t.plays != [] && Winner(t) == id
  }

  lemma {:induction false} WonTricksCount(tricks: seq<Trick>, id: nat)
    ensures TricksWonBy(tricks, id) == |WonTricks(tricks, id)|
  {
    WonNext(tricks, id);
    hide Won, TricksWonBy;
    if tricks == [] {
      assert WonTricks(tricks, id) == {};
    } else {
      var init, last := tricks[..|tricks| - 1], |tricks| - 1;
      WonTricksCount(init, id);
      if Won(tricks[last], id) {
        assert WonTricks(tricks, id) == WonTricks(init, id) + {last};
      } else {
        assert WonTricks(tricks, id) == WonTricks(init, id);
      }
    }
  }

  lemma WonNext(tricks: seq<Trick>, id: nat)
    ensures tricks == [] ==> TricksWonBy(tricks, id) == 0
    ensures tricks != [] ==>
              TricksWonBy(tricks, id) ==
              TricksWonBy(tricks[..|tricks| - 1], id) + if Won(tricks[|tricks| - 1], id) then 1 else 0
  {
    hide Winner;
  }

  // The archived result of every deal: the bids that were placed, the tricks each
  // player won, and the points these are worth.
  lemma DealScored(s: Match, i: nat, q: nat)
    requires Inv(s) && i < |s.completed| && q < s.config.count
    ensures var deal, result := s.completed[i].deal, s.completed[i].result;
            && |deal.players| == s.config.count && |deal.completed| == TricksPerDeal(s.config)
            && |result.bids| == |result.tricksWon| == |result.scores| == s.config.count
            && deal.players[q].bid == Some(result.bids[q]) && 1 <= result.bids[q] <= TricksPerDeal(s.config)
            && result.tricksWon[q] == |WonTricks(deal.completed, q + 1)|
            && result.scores[q] == if result.tricksWon[q] < result.bids[q] then -10 * result.bids[q]
                                   else 9 * result.bids[q] + result.tricksWon[q]
  {
    hide FullDeck, ReplayTricks, TricksFormed, HandsOk, BidsOk, CurrentOk, Settled, PreparationOk, AbandonedOk, Winner;
    assert ArchiveOk(s, i);
    WonTricksCount(s.completed[i].deal.completed, q + 1);
  }

  // ---- the match

  // score_tenths: what a player has won so far.
  function MatchScore(completed: seq<CompletedDeal>, id: nat): int {
    if completed == [] then 0
    else
      var scores := completed[|completed| - 1].result.scores;
      MatchScore(completed[..|completed| - 1], id) + if 1 <= id <= |scores| then scores[id - 1] else 0
  }

  function BestScore(completed: seq<CompletedDeal>, n: nat): int
    requires n > 0
  {
    if n == 1 then MatchScore(completed, 1)
    else
      var best, last := BestScore(completed, n - 1), MatchScore(completed, n);
      if last > best then last else best
  }

  // winners
  function Winners(s: Match): set<nat>
    requires s.config.count > 0
  {
    if s.phase != MatchComplete then {}
    else
      var best := BestScore(s.completed, s.config.count);
      set id: nat | 1 <= id <= s.config.count && MatchScore(s.completed, id) == best
  }

  lemma {:induction false} BestIsReached(completed: seq<CompletedDeal>, n: nat) returns (id: nat)
    requires n > 0
    ensures forall q: nat :: 1 <= q <= n ==> MatchScore(completed, q) <= BestScore(completed, n)
    ensures 1 <= id <= n && MatchScore(completed, id) == BestScore(completed, n)
  {
    hide MatchScore;
    id := n;
    if n > 1 {
      var q := BestIsReached(completed, n - 1);
      if MatchScore(completed, q) == BestScore(completed, n) { id := q; }
    }
  }

  // A finished match is won by those whose points nobody exceeds, and there is
  // somebody; an unfinished one by nobody.
  lemma WinnersMean(s: Match)
    requires s.config.count > 0
    ensures forall id: nat :: id in Winners(s) <==>
              && s.phase == MatchComplete && 1 <= id <= s.config.count
              && forall q: nat :: 1 <= q <= s.config.count ==> MatchScore(s.completed, q) <= MatchScore(s.completed, id)
    ensures Winners(s) != {} <==> s.phase == MatchComplete
  {
    var best := BestIsReached(s.completed, s.config.count);
    hide MatchScore, BestScore;
    assert s.phase == MatchComplete ==> best in Winners(s);
  }
}
