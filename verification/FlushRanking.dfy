// Which of two Flush hands wins, in ranks and classes only.
module FlushRanking {
  import opened Prelude
  import opened Cards
  import opened FlushEvaluator

  // From the weakest class to the strongest.
  const CLASSES := [HighCard, Pair, Color, Sequence, PureSequence, Trail]

  // A hand of a stronger class beats every hand of a weaker one.
  lemma StrongerClassWins(policy: AcePolicy, x: seq<Card>, y: seq<Card>, i: nat, j: nat)
    requires Hand(x) && Hand(y) && j < i < 6
    requires Grade(policy, x).rank == CLASSES[i] && Grade(policy, y).rank == CLASSES[j]
    ensures Compare(policy, x, y) == Some(1)
  {
    CompareIs(policy, x, y);
    hide Grade, TupleLess;
  }

  // Of two trails the one of higher cards wins.
  lemma TrailsMean(policy: AcePolicy, x: seq<Card>, y: seq<Card>)
    requires Hand(x) && Hand(y) && Grade(policy, x).rank == Grade(policy, y).rank == Trail
    ensures Compare(policy, x, y) == Some(1) <==> x[0].rank > y[0].rank
    ensures Compare(policy, x, y) == Some(0) <==> x[0].rank == y[0].rank
  {
    CompareIs(policy, x, y);
    TrailTiebreak(policy, x);
    TrailTiebreak(policy, y);
    OneLess(Grade(policy, x), Grade(policy, y));
    OneLess(Grade(policy, y), Grade(policy, x));
    hide Less, Grade;
  }

  lemma TrailTiebreak(policy: AcePolicy, cards: seq<Card>)
    requires |cards| == 3 && Grade(policy, cards).rank == Trail
    ensures Grade(policy, cards).tiebreak == [cards[0].rank as int]
  {
    hide SequenceValue;
  }

  lemma OneLess(a: HandResult, b: HandResult)
    requires a.rank == b.rank && |a.tiebreak| == |b.tiebreak| == 1
    ensures Less(a, b) <==> a.tiebreak[0] < b.tiebreak[0]
  {
    FirstDecides(a.tiebreak, b.tiebreak);
    assert a.tiebreak[1..] == [] && b.tiebreak[1..] == [];
  }

  lemma FirstDecides(a: seq<int>, b: seq<int>)
    requires a != [] && b != []
    ensures TupleLess(a, b) <==> a[0] < b[0] || (a[0] == b[0] && TupleLess(a[1..], b[1..]))
    ensures !TupleLess([], [])
  {
  }

  // The highest rank that only one of the two hands holds is held by the first.
  ghost predicate HigherRanks(a: set<int>, b: set<int>) {
    exists r :: r in a && r !in b && forall q :: q > r ==> (q in a <==> q in b)
  }

  // Colours and high cards go by the highest rank that only one of them holds.
  lemma HighCardsMean(policy: AcePolicy, x: seq<Card>, y: seq<Card>)
    requires Hand(x) && Hand(y) && Grade(policy, x).rank == Grade(policy, y).rank
    requires Grade(policy, x).rank == Color || Grade(policy, x).rank == HighCard
    ensures Compare(policy, x, y) == Some(1) <==> HigherRanks(RankSet(x), RankSet(y))
    ensures Compare(policy, x, y) == Some(0) <==> RankSet(x) == RankSet(y)
  {
    CompareIs(policy, x, y);
    ThreeRanks(policy, x);
    ThreeRanks(policy, y);
    var r, q := Ranks(x), Ranks(y);
    TripleLess(r, q);
    TripleLess(q, r);
    RanksAre(x);
    RanksAre(y);
    SetsInOrder(r[0], r[1], r[2], q[0], q[1], q[2]);
    hide Grade, TupleLess, HigherRanks, RankSet, Ranks;
  }

  // Both classes hold three different ranks and keep them, highest first.
  lemma ThreeRanks(policy: AcePolicy, cards: seq<Card>)
    requires Hand(cards) && (Grade(policy, cards).rank == Color || Grade(policy, cards).rank == HighCard)
    ensures var r := Ranks(cards); r[0] > r[1] > r[2] && Grade(policy, cards).tiebreak == r
  {
    assert cards[0] != cards[1] && cards[1] != cards[2] && cards[0] != cards[2];
    hide SequenceValue;
  }

  lemma TripleLess(r: seq<int>, q: seq<int>)
    requires |r| == 3 && |q| == 3
    ensures TupleLess(r, q) <==>
            r[0] < q[0] || (r[0] == q[0] && (r[1] < q[1] || (r[1] == q[1] && r[2] < q[2])))
  {
    hide TupleLess;
    FirstDecides(r, q);
    FirstDecides(r[1..], q[1..]);
    FirstDecides(r[1..][1..], q[1..][1..]);
    assert r[1..][1..][1..] == [] && q[1..][1..][1..] == [];
  }

  lemma SetsInOrder(a: int, b: int, c: int, x: int, y: int, z: int)
    requires a > b > c && x > y > z
    ensures HigherRanks({a, b, c}, {x, y, z}) <==>
            a > x || (a == x && (b > y || (b == y && c > z)))
    ensures {a, b, c} == {x, y, z} <==> a == x && b == y && c == z
  {
    if a != x {
      TopDecides(a, b, c, x, y, z);
    } else if b != y {
      MiddleDecides(a, b, c, y, z);
    } else {
      LastDecides(a, b, c, z);
    }
  }

  lemma TopDecides(a: int, b: int, c: int, x: int, y: int, z: int)
    requires a > b > c && x > y > z && a != x
    ensures HigherRanks({a, b, c}, {x, y, z}) <==> a > x
    ensures {a, b, c} != {x, y, z}
  {
    var s, t := {a, b, c}, {x, y, z};
    assert a in s && x in t && (a > x ==> a !in t) && (a < x ==> x !in s);
  }

  lemma MiddleDecides(a: int, b: int, c: int, y: int, z: int)
    requires a > b > c && a > y > z && b != y
    ensures HigherRanks({a, b, c}, {a, y, z}) <==> b > y
    ensures {a, b, c} != {a, y, z}
  {
    var s, t := {a, b, c}, {a, y, z};
    assert b in s && y in t && (b > y ==> b !in t) && (b < y ==> y !in s);
  }

  lemma LastDecides(a: int, b: int, c: int, z: int)
    requires a > b > c && a > b > z
    ensures HigherRanks({a, b, c}, {a, b, z}) <==> c > z
    ensures {a, b, c} == {a, b, z} <==> c == z
  {
    var s, t := {a, b, c}, {a, b, z};
    assert c in s && z in t && (c > z ==> c !in t) && (c < z ==> z !in s);
  }

  // Two cards of one rank and one of another.
  ghost predicate PairOf(cards: seq<Card>, pair: int, odd: int)
    requires |cards| == 3
  {
    pair != odd && multiset{cards[0].rank as int, cards[1].rank as int, cards[2].rank as int}
        == multiset{pair, pair, odd}
  }

  // Pairs go by the pair, and equal pairs by the third card.
  lemma PairsMean(policy: AcePolicy, x: seq<Card>, y: seq<Card>, pair: int, odd: int, pair': int, odd': int)
    requires Hand(x) && Hand(y) && Grade(policy, x).rank == Grade(policy, y).rank == Pair
    requires PairOf(x, pair, odd) && PairOf(y, pair', odd')
    ensures Compare(policy, x, y) == Some(1) <==> pair > pair' || (pair == pair' && odd > odd')
    ensures Compare(policy, x, y) == Some(0) <==> pair == pair' && odd == odd'
  {
    hide Compare, PairOf, TupleLess;
    CompareIs(policy, x, y);
    PairTiebreak(policy, x, pair, odd);
    PairTiebreak(policy, y, pair', odd');
    hide Grade;
    PairLess(pair, odd, pair', odd');
    PairLess(pair', odd', pair, odd);
  }

  lemma PairLess(pair: int, odd: int, pair': int, odd': int)
    ensures TupleLess([pair, odd], [pair', odd']) <==> pair < pair' || (pair == pair' && odd < odd')
  {
    hide TupleLess;
    assert [pair, odd][1..] == [odd] && [pair', odd'][1..] == [odd'];
    assert [odd][1..] == [] && [odd'][1..] == [];
    FirstDecides([pair, odd], [pair', odd']);
    FirstDecides([odd], [odd']);
  }

  lemma PairTiebreak(policy: AcePolicy, cards: seq<Card>, pair: int, odd: int)
    requires Hand(cards) && Grade(policy, cards).rank == Pair && PairOf(cards, pair, odd)
    ensures Grade(policy, cards).tiebreak == [pair, odd]
  {
    var m := multiset{cards[0].rank as int, cards[1].rank as int, cards[2].rank as int};
    assert m[pair] == 2 && m[odd] == 1;
    assert (cards[0].rank == cards[1].rank == pair && cards[2].rank == odd)
           || (cards[0].rank == cards[2].rank == pair && cards[1].rank == odd)
           || (cards[1].rank == cards[2].rank == pair && cards[0].rank == odd);
    hide SequenceValue;
  }

  // Where ace, two and three stand among the sequences.
  predicate AceRunBeats(policy: AcePolicy, lo: int) {
    match policy
    case AkqFirstA23Second => lo < 12
    case A23First => true
    case A23Lowest => false
  }

  // Sequences of one class go by their ranks, with ace, two and three where the
  // policy puts it: below ace, king and queen only, above all others, or below all.
  lemma SequencesMean(policy: AcePolicy, x: seq<Card>, y: seq<Card>)
    requires Hand(x) && Hand(y) && Grade(policy, x).rank == Grade(policy, y).rank
    requires Grade(policy, x).rank == Sequence || Grade(policy, x).rank == PureSequence
    ensures forall a, b :: RankSet(x) == Three(a) && RankSet(y) == Three(b) ==>
              (Compare(policy, x, y) == Some(1) <==> a > b) && (Compare(policy, x, y) == Some(0) <==> a == b)
    ensures forall b :: RankSet(x) == {14, 2, 3} && RankSet(y) == Three(b) ==>
              Compare(policy, x, y) == Some(if AceRunBeats(policy, b) then 1 else -1)
    ensures RankSet(x) == {14, 2, 3} && RankSet(y) == {14, 2, 3} ==> Compare(policy, x, y) == Some(0)
  {
    CompareIs(policy, x, y);
    RunValue(policy, x);
    RunValue(policy, y);
    OneLess(Grade(policy, x), Grade(policy, y));
    OneLess(Grade(policy, y), Grade(policy, x));
    hide Grade, Less, RankSet, Three, Compare;
  }

  lemma RunValue(policy: AcePolicy, cards: seq<Card>)
    requires |cards| == 3 && (Grade(policy, cards).rank == Sequence || Grade(policy, cards).rank == PureSequence)
    ensures |Grade(policy, cards).tiebreak| == 1
    ensures forall lo :: RankSet(cards) == Three(lo) ==>
              2 <= lo <= 12 && Grade(policy, cards).tiebreak[0] == if lo == 12 then 15 else lo + 2
    ensures RankSet(cards) == {14, 2, 3} ==>
              Grade(policy, cards).tiebreak[0] ==
              match policy case AkqFirstA23Second => 14 case A23First => 16 case A23Lowest => 3
  {
    RanksAre(cards);
    var r := Ranks(cards);
    forall lo | RankSet(cards) == Three(lo)
      ensures 2 <= lo <= 12 && Grade(policy, cards).tiebreak[0] == if lo == 12 then 15 else lo + 2
    {
      ThreeInRow(r[0], r[1], r[2], lo);
    }
    AceSet(r[0], r[1], r[2]);
    hide RankSet;
  }
}
