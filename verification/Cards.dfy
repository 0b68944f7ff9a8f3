// card_utils: standard playing cards and the non-mutating pile operations.
// A card is its suit and rank. The standard deck lists all of them in suit and
// rank order; a full deck is any list of 52 that holds them all. Cutting and
// dealing in strides only rearrange what they are given, so a full deck stays
// one.
module Cards {
  import opened Prelude

  datatype Suit = Clubs | Diamonds | Hearts | Spades

  // Rank values as in card_utils: TWO is 2, JACK 11, ACE 14.
  type Rank = r: int | 2 <= r <= 14 witness 2

  const JACK: Rank := 11
  const QUEEN: Rank := 12
  const ACE: Rank := 14

  datatype Card = Card(suit: Suit, rank: Rank)

  function SuitNumber(suit: Suit): (i: nat)
    ensures i < 4
  {
    match suit
    case Clubs => 0
    case Diamonds => 1
    case Hearts => 2
    case Spades => 3
  }

  function SuitAt(i: int): Suit
    requires 0 <= i < 4
  {
    if i == 0 then Clubs else if i == 1 then Diamonds else if i == 2 then Hearts else Spades
  }

  function CardAt(i: int): Card
    requires 0 <= i < 52
  {
    Card(SuitAt(i / 13), 2 + i % 13)
  }

  function CardNumber(c: Card): (i: nat)
    ensures i < 52 && CardAt(i) == c
  {
    13 * SuitNumber(c.suit) + (c.rank - 2)
  }

  // standard_52
  function Standard52(): (deck: seq<Card>)
    ensures |deck| == 52
  {
    seq(52, i requires 0 <= i < 52 => CardAt(i))
  }

  lemma NumberOfCardAt(i: nat)
    requires i < 52
    ensures CardNumber(CardAt(i)) == i
  {
  }

  lemma Standard52Is()
    ensures NoDup(Standard52()) && |Elems(Standard52())| == 52
    ensures forall c: Card :: c in Elems(Standard52())
  {
    hide CardAt, CardNumber;
    var deck := Standard52();
    forall i, j | 0 <= i < j < 52 ensures deck[i] != deck[j] {
      NumberOfCardAt(i);
      NumberOfCardAt(j);
    }
    NoDupSize(deck);
    forall c: Card ensures c in deck {
      assert deck[CardNumber(c)] == c;
    }
  }

  // The deck test of the engines: 52 entries covering the standard deck.
  predicate FullDeck(deck: seq<Card>) {
    |deck| == 52 && Elems(deck) == Elems(Standard52())
  }

  // Any 52 distinct cards are the whole deck.
  lemma FullDeckIsDistinct(deck: seq<Card>)
    requires |deck| == 52
    ensures FullDeck(deck) <==> NoDup(deck)
  {
    Standard52Is();
    NoDupSize(deck);
    SubsetFull(Elems(deck), Elems(Standard52()));
  }

  function Cut<T>(items: seq<T>, index: nat): (r: seq<T>)
    requires index <= |items|
    ensures |r| == |items|
  {
    items[index..] + items[..index]
  }

  lemma CutKeeps<T>(items: seq<T>, index: nat)
    requires index <= |items|
    ensures Elems(Cut(items, index)) == Elems(items) && multiset(Cut(items, index)) == multiset(items)
  {
    assert items == items[..index] + items[index..];
  }

  // dealt[i::n] of a pile of n * each cards.
  function Stride<T>(items: seq<T>, i: nat, n: nat, each: nat): (r: seq<T>)
    requires i < n && n * each <= |items|
    ensures |r| == each
  {
    seq(each, k requires 0 <= k < each => StrideAt(items, i, n, each, k))
  }

  function StrideAt<T>(items: seq<T>, i: nat, n: nat, each: nat, k: nat): T
    requires i < n && n * each <= |items| && k < each
  {
    RowFits(k, each, n);
    items[k * n + i]
  }

  lemma MulCancel(a: nat, b: nat, n: nat)
    requires n > 0
    ensures a * n < b * n ==> a < b
  {
    if a >= b {
      assert a * n == b * n + (a - b) * n;
      assert (a - b) * n >= 0;
    }
  }

  lemma RowFits(k: nat, each: nat, n: nat)
    requires k < each
    ensures k * n + n <= n * each
  {
    assert n * each == k * n + n + (each - k - 1) * n;
    assert (each - k - 1) * n >= 0;
  }

  // Every dealt card is in the hand of its index modulo n.
  lemma DealtTo<T>(items: seq<T>, n: nat, each: nat, m: nat)
    requires n > 0 && n * each <= |items| && m < n * each
    ensures m / n < each && m % n < n && items[m] == Stride(items, m % n, n, each)[m / n]
  {
    assert m == (m / n) * n + m % n;
    MulCancel(m / n, each, n);
    assert StrideAt(items, m % n, n, each, m / n) == items[(m / n) * n + m % n];
  }
}
