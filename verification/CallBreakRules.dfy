// Tricks, the winning play, and which cards may be played.
module CallBreakRules {
  import opened Prelude
  import opened Cards

  datatype Play = Play(player: nat, card: Card)
  datatype Trick = Trick(count: nat, leader: nat, plays: seq<Play>)

  // The seat whose play has this index.
  function Turn(count: nat, leader: nat, index: nat): (r: nat)
    requires count > 0 && leader > 0
    ensures 1 <= r <= count
  {
    Around(leader - 1 + index, count) + 1
  }

  // 52 // players and 52 % players, spelt out for the two sizes of table.
  function EachOf(players: nat): nat
    requires players > 0
  {
    if players == 4 then 13 else if players == 5 then 10 else 52 / players
  }

  function LeftOver(players: nat): nat
    requires players > 0
  {
    if players == 4 then 0 else if players == 5 then 2 else 52 % players
  }

  lemma SharesOfDeck(players: nat)
    requires players > 0
    ensures EachOf(players) == 52 / players && LeftOver(players) == 52 % players
  {
  }

  function PlayedCards(plays: seq<Play>): (r: seq<Card>)
    ensures |r| == |plays| && forall i :: 0 <= i < |r| ==> r[i] == plays[i].card
  {
    seq(|plays|, i requires 0 <= i < |plays| => plays[i].card)
  }

  // What the Trick constructor checks.
  predicate TrickFormed(t: Trick) {
    && (t.count == 4 || t.count == 5) && 1 <= t.leader <= t.count
    && |t.plays| <= t.count
    && (forall i :: 0 <= i < |t.plays| ==> t.plays[i].player == Turn(t.count, t.leader, i))
    && NoDup(PlayedCards(t.plays))
  }

  predicate Complete(t: Trick) {
    |t.plays| == t.count
  }

  function CurrentPlayer(t: Trick): Option<nat>
    requires t.count > 0 && t.leader > 0
  {
    if Complete(t) then None else Some(Turn(t.count, t.leader, |t.plays|))
  }

  // ---- the winning play

  function Strength(card: Card, led: Suit): (int, int) {
    (if card.suit == Spades then 2 else if card.suit == led then 1 else 0, card.rank)
  }

  // The tuple comparison a > b.
  predicate Beats(a: Card, b: Card, led: Suit) {
    var (ca, ra) := Strength(a, led);
    var (cb, rb) := Strength(b, led);
    ca > cb || (ca == cb && ra > rb)
  }

  // max() keeps the first of the strongest plays.
  function WinnerIndex(plays: seq<Play>): (k: nat)
    requires plays != []
    ensures k < |plays|
  {
    if |plays| == 1 then 0
    else
      var k := WinnerIndex(plays[..|plays| - 1]);
      if Beats(plays[|plays| - 1].card, plays[k].card, plays[0].card.suit) then |plays| - 1 else k
  }

  function WinningCard(plays: seq<Play>): Card
    requires plays != []
  {
    plays[WinnerIndex(plays)].card
  }

  // resolve_trick
  function Winner(t: Trick): nat
    requires t.plays != []
  {
    t.plays[WinnerIndex(t.plays)].player
  }

  lemma BeatsTransitive(a: Card, b: Card, c: Card, led: Suit)
    requires Beats(a, b, led) && Beats(b, c, led)
    ensures Beats(a, c, led)
  {
  }

  // Cards that can win are never tied.
  lemma BeatsTotal(a: Card, b: Card, led: Suit)
    requires a != b && Strength(a, led).0 >= 1
    ensures Beats(a, b, led) <==> !Beats(b, a, led)
  {
  }

  // The winner strictly beats every other play, so the order of max() and the
  // suits of the discards never matter.
  lemma {:induction false} WinnerIsUnique(plays: seq<Play>)
    requires plays != [] && NoDup(PlayedCards(plays))
    ensures var k := WinnerIndex(plays); var led := plays[0].card.suit;
            && Strength(plays[k].card, led).0 >= 1
            && forall i :: 0 <= i < |plays| && i != k ==> Beats(plays[k].card, plays[i].card, led)
    ensures forall j :: 0 <= j < |plays| &&
              (forall i :: 0 <= i < |plays| ==> !Beats(plays[i].card, plays[j].card, plays[0].card.suit))
              ==> j == WinnerIndex(plays)
  {
    if |plays| > 1 {
      var led := plays[0].card.suit;
      var init, last := plays[..|plays| - 1], plays[|plays| - 1];
      assert forall i :: 0 <= i < |init| ==> PlayedCards(init)[i] == PlayedCards(plays)[i];
      WinnerIsUnique(init);
      var k := WinnerIndex(init);
      assert PlayedCards(plays)[|plays| - 1] != PlayedCards(plays)[k];
      StillUnique(plays, k);
      hide Beats, NoDup, PlayedCards;
      var w := WinnerIndex(plays);
      forall j | 0 <= j < |plays| && j != w
        ensures exists i :: 0 <= i < |plays| && Beats(plays[i].card, plays[j].card, led)
      {
        assert Beats(plays[w].card, plays[j].card, led);
      }
    }
  }

  lemma StillUnique(plays: seq<Play>, k: nat)
    requires |plays| > 1 && k == WinnerIndex(plays[..|plays| - 1]) && plays[k].card != plays[|plays| - 1].card
    requires var led := plays[0].card.suit;
             && Strength(plays[k].card, led).0 >= 1
             && forall i :: 0 <= i < |plays| - 1 && i != k ==> Beats(plays[k].card, plays[i].card, led)
    ensures var w := WinnerIndex(plays); var led := plays[0].card.suit;
            && Strength(plays[w].card, led).0 >= 1
            && forall i :: 0 <= i < |plays| && i != w ==> Beats(plays[w].card, plays[i].card, led)
  {
    var led, last := plays[0].card.suit, plays[|plays| - 1].card;
    BeatsTotal(plays[k].card, last, led);
    assert Beats(last, plays[k].card, led) ==> Strength(last, led).0 >= 1;
    hide Beats, Strength;
    if Beats(last, plays[k].card, led) {
      forall i | 0 <= i < |plays| - 1 ensures Beats(last, plays[i].card, led) {
        if i != k { BeatsTransitive(last, plays[k].card, plays[i].card, led); }
      }
    }
  }

  // ---- legal cards

  predicate Wins(card: Card, plays: seq<Play>)
    requires plays != []
  {
    Beats(card, WinningCard(plays), plays[0].card.suit)
  }

  function OfSuit(hand: set<Card>, suit: Suit): set<Card> {
    set c | c in hand && c.suit == suit
  }

  function Winning(hand: set<Card>, plays: seq<Play>): set<Card>
    requires plays != []
  {
    set c | c in hand && Wins(c, plays)
  }

  // The cards a hand may play: follow suit and beat when possible, else a
  // winning spade, else anything.
  function Legal(hand: set<Card>, plays: seq<Play>): (r: set<Card>)
    ensures r <= hand && (hand != {} ==> r != {})
  {
    if plays == [] then hand
    else
      var following := OfSuit(hand, plays[0].card.suit);
      if following != {} then
        var beating := Winning(following, plays);
        if beating != {} then beating else following
      else
        var spades := Winning(OfSuit(hand, Spades), plays);
        if spades != {} then spades else hand
  }

  // If some legal card would take the lead, every legal card does.
  lemma AllOrNothing(hand: set<Card>, plays: seq<Play>)
    requires plays != [] && NoDup(PlayedCards(plays))
    ensures forall c, d :: c in Legal(hand, plays) && d in Legal(hand, plays) ==> (Wins(c, plays) <==> Wins(d, plays))
    ensures (exists c :: c in Legal(hand, plays) && Wins(c, plays)) <==>
            (var led := plays[0].card.suit;
             exists c :: c in hand && Wins(c, plays) && (OfSuit(hand, led) != {} ==> c.suit == led))
  {
    WinnerIsUnique(plays);
    var led := plays[0].card.suit;
    var following := OfSuit(hand, led);
    var legal := Legal(hand, plays);
    if following != {} {
      var beating := Winning(following, plays);
      forall c | c in hand && Wins(c, plays) && c.suit == led ensures c in beating {}
      if beating == {} {
        forall c | c in legal ensures !Wins(c, plays) { assert c !in beating; }
      }
    } else {
      var spades := Winning(OfSuit(hand, Spades), plays);
      forall c | c in hand && Wins(c, plays) ensures c in spades {
        assert c !in following;
        assert c in OfSuit(hand, Spades);
      }
      if spades == {} {
        forall c | c in legal ensures !Wins(c, plays) { assert c !in spades; }
      }
    }
  }

  // ---- legal_cards and validate_play, on hands in order

  datatype Verdict = Ok | Rejection(code: Code) | Raised
  datatype Code =
    | InvalidPlayer | TrickComplete | NotYourTurn | CardNotOwned | IllegalCard
    | MatchFinished | InvalidPhase | InvalidDeck | UnknownCommand | InvalidDistribution
    | InvalidCut | HandAlreadyAccepted | RedealNotAllowed | InvalidBid | AlreadyBid

  // _checked_hand raises unless this holds.
  predicate HandOk(hand: seq<Card>, t: Trick)
    requires t.count > 0
  {
    && |hand| == |Elems(hand)|
    && (forall i :: 0 <= i < |t.plays| ==> t.plays[i].card !in hand)
    && |hand| <= EachOf(t.count)
  }

  function Suited(hand: seq<Card>, suit: Suit): (r: seq<Card>)
    ensures forall c :: c in r <==> c in hand && c.suit == suit
  {
    if hand == [] then []
    else if hand[0].suit == suit then [hand[0]] + Suited(hand[1..], suit)
    else Suited(hand[1..], suit)
  }

  function Takers(hand: seq<Card>, plays: seq<Play>): (r: seq<Card>)
    requires plays != []
    ensures forall c :: c in r <==> c in hand && Wins(c, plays)
  {
    if hand == [] then []
    else if Wins(hand[0], plays) then [hand[0]] + Takers(hand[1..], plays)
    else Takers(hand[1..], plays)
  }

  // legal_cards for the player to move, in hand order.
  function LegalCards(hand: seq<Card>, plays: seq<Play>): (r: seq<Card>)
    ensures Elems(r) == Legal(Elems(hand), plays)
  {
    if plays == [] then hand
    else
      var following := Suited(hand, plays[0].card.suit);
      assert Elems(following) == OfSuit(Elems(hand), plays[0].card.suit);
      if following != [] then
        assert following[0] in Elems(following);
        var beating := Takers(following, plays);
        assert Elems(beating) == Winning(Elems(following), plays);
        assert beating != [] ==> beating[0] in Elems(beating);
        if beating != [] then beating else following
      else
        var spades := Takers(Suited(hand, Spades), plays);
        assert Elems(spades) == Winning(OfSuit(Elems(hand), Spades), plays);
        assert spades != [] ==> spades[0] in Elems(spades);
        if spades != [] then spades else hand
  }

  // validate_play
  function ValidatePlay(hand: seq<Card>, t: Trick, player: nat, card: Card): Verdict
    requires t.count > 0 && t.leader > 0
  {
    if !(1 <= player <= t.count) then Rejection(InvalidPlayer)
    else if Complete(t) then Rejection(TrickComplete)
    else if CurrentPlayer(t) != Some(player) then Rejection(NotYourTurn)
    else if !HandOk(hand, t) then Raised
    else if card !in hand then Rejection(CardNotOwned)
    else if card !in LegalCards(hand, t.plays) then Rejection(IllegalCard)
    else Ok
  }

  // The play is accepted, looking only at which cards the hand holds.
  predicate PlayAllowed(hand: set<Card>, t: Trick, player: nat, card: Card)
    requires t.count > 0 && t.leader > 0
  {
    && 1 <= player <= t.count && CurrentPlayer(t) == Some(player)
    && (forall i :: 0 <= i < |t.plays| ==> t.plays[i].card !in hand)
    && |hand| <= EachOf(t.count)
    && card in Legal(hand, t.plays)
  }

  // The order of a hand never matters to a play.
  lemma ValidateIsAllowed(hand: seq<Card>, t: Trick, player: nat, card: Card)
    requires t.count > 0 && t.leader > 0 && NoDup(hand)
    ensures ValidatePlay(hand, t, player, card) == Ok <==> PlayAllowed(Elems(hand), t, player, card)
  {
    NoDupSize(hand);
    assert card in LegalCards(hand, t.plays) <==> card in Elems(LegalCards(hand, t.plays));
  }
}
