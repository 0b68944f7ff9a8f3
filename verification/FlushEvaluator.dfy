// Three-card hands: their classes, their order, and the three places the
// A-2-3 sequence can take in it. Suits never break a tie.
module FlushEvaluator {
  import opened Prelude
  import opened Cards

  datatype AcePolicy = AkqFirstA23Second | A23First | A23Lowest
  datatype HandRank = HighCard | Pair | Color | Sequence | PureSequence | Trail
  datatype HandResult = HandResult(rank: HandRank, tiebreak: seq<int>)

  function RankNumber(r: HandRank): int {
    match r
    case HighCard => 1
    case Pair => 2
    case Color => 3
    case Sequence => 4
    case PureSequence => 5
    case Trail => 6
  }

  // The three ranks, highest first.
  function Descending(a: int, b: int, c: int): (r: seq<int>)
    ensures |r| == 3 && r[0] >= r[1] >= r[2]
    ensures r == [a, b, c] || r == [a, c, b] || r == [b, a, c] || r == [b, c, a] || r == [c, a, b] || r == [c, b, a]
  {
    if a >= b then
      if b >= c then [a, b, c] else if a >= c then [a, c, b] else [c, a, b]
    else if a >= c then [b, a, c] else if b >= c then [b, c, a] else [c, b, a]
  }

  function Ranks(cards: seq<Card>): seq<int>
    requires |cards| == 3
  {
    Descending(cards[0].rank, cards[1].rank, cards[2].rank)
  }

  predicate SameSuit(cards: seq<Card>)
    requires |cards| == 3
  {
    cards[0].suit == cards[1].suit == cards[2].suit
  }

  // What a sequence is worth, None for ranks that are not in sequence.
  function SequenceValue(policy: AcePolicy, ranks: seq<int>): Option<int>
    requires |ranks| == 3
  {
    if ranks == [14, 3, 2] then
      Some(match policy case AkqFirstA23Second => 14 case A23First => 16 case A23Lowest => 3)
    else if ranks[0] != ranks[1] && ranks[1] != ranks[2] && ranks[0] - ranks[2] == 2 then
      Some(if ranks[0] == 14 then 15 else ranks[0])
    else None
  }

  function Grade(policy: AcePolicy, cards: seq<Card>): (r: HandResult)
    requires |cards| == 3
  {
    var ranks := Ranks(cards);
    var sequence := SequenceValue(policy, ranks);
    if ranks[0] == ranks[2] then HandResult(Trail, [ranks[0]])
    else if sequence.Some? then HandResult(if SameSuit(cards) then PureSequence else Sequence, [sequence.value])
    else if SameSuit(cards) then HandResult(Color, ranks)
    else if ranks[0] == ranks[1] then HandResult(Pair, [ranks[0], ranks[2]])
    else if ranks[1] == ranks[2] then HandResult(Pair, [ranks[1], ranks[0]])
    else HandResult(HighCard, ranks)
  }

  // evaluate; None where it raises.
  function Evaluate(policy: AcePolicy, cards: seq<Card>): Option<HandResult> {
    if |cards| != 3 || !NoDup(cards) then None else Some(Grade(policy, cards))
  }

  // ---- the order of results

  // Python's order on tuples.
  predicate TupleLess(a: seq<int>, b: seq<int>) {
    if a == [] then b != []
    else if b == [] then false
    else a[0] < b[0] || (a[0] == b[0] && TupleLess(a[1..], b[1..]))
  }

  predicate Less(a: HandResult, b: HandResult) {
    RankNumber(a.rank) < RankNumber(b.rank) || (a.rank == b.rank && TupleLess(a.tiebreak, b.tiebreak))
  }

  lemma {:induction false} TupleTotal(a: seq<int>, b: seq<int>)
    ensures TupleLess(a, b) ==> !TupleLess(b, a) && a != b
    ensures TupleLess(a, b) || TupleLess(b, a) || a == b
  {
    if a != [] && b != [] {
      TupleTotal(a[1..], b[1..]);
      assert a == [a[0]] + a[1..] && b == [b[0]] + b[1..];
    }
  }

  lemma {:induction false} TupleTransitive(a: seq<int>, b: seq<int>, c: seq<int>)
    requires TupleLess(a, b) && TupleLess(b, c)
    ensures TupleLess(a, c)
  {
    if a != [] && b != [] && c != [] && a[0] == b[0] == c[0] {
      TupleTransitive(a[1..], b[1..], c[1..]);
    }
  }

  // Results are totally ordered.
  lemma LessTotal(a: HandResult, b: HandResult, c: HandResult)
    ensures Less(a, b) ==> !Less(b, a) && a != b
    ensures Less(a, b) || Less(b, a) || a == b
    ensures Less(a, b) && Less(b, c) ==> Less(a, c)
  {
    TupleTotal(a.tiebreak, b.tiebreak);
    if Less(a, b) && Less(b, c) && a.rank == b.rank == c.rank {
      TupleTransitive(a.tiebreak, b.tiebreak, c.tiebreak);
    }
  }

  // compare; None where it raises.
  function Compare(policy: AcePolicy, left: seq<Card>, right: seq<Card>): Option<int> {
    match (Evaluate(policy, left), Evaluate(policy, right))
    case (Some(a), Some(b)) => Some((if Less(b, a) then 1 else 0) - (if Less(a, b) then 1 else 0))
    case _ => None
  }

  predicate Hand(cards: seq<Card>) {
    |cards| == 3 && NoDup(cards)
  }

  lemma CompareIs(policy: AcePolicy, x: seq<Card>, y: seq<Card>)
    requires Hand(x) && Hand(y)
    ensures var a, b := Grade(policy, x), Grade(policy, y);
            Compare(policy, x, y) == Some(if Less(b, a) then 1 else if Less(a, b) then -1 else 0)
  {
    hide Grade, Less;
    LessTotal(Grade(policy, x), Grade(policy, y), Grade(policy, x));
  }

  // A total preorder on hands: antisymmetric, transitive, ties are equal results.
  lemma CompareOrders(policy: AcePolicy, x: seq<Card>, y: seq<Card>, z: seq<Card>)
    requires Hand(x) && Hand(y) && Hand(z)
    ensures Compare(policy, x, y).Some? && Compare(policy, y, x) == Some(-Compare(policy, x, y).value)
    ensures Compare(policy, x, y) == Some(0) <==> Grade(policy, x) == Grade(policy, y)
    ensures Compare(policy, y, z).Some? && Compare(policy, x, z).Some?
    ensures Compare(policy, x, y).value >= 0 && Compare(policy, y, z).value >= 0 ==>
              Compare(policy, x, z).value >= 0 &&
              (Compare(policy, x, z).value == 0 ==> Compare(policy, x, y).value == 0 && Compare(policy, y, z).value == 0)
  {
    hide Grade, Less, NoDup, Compare;
    CompareIs(policy, x, y);
    CompareIs(policy, y, x);
    CompareIs(policy, y, z);
    CompareIs(policy, x, z);
    var a, b, c := Grade(policy, x), Grade(policy, y), Grade(policy, z);
    LessTotal(a, b, c);
    LessTotal(b, c, a);
    LessTotal(c, b, a);
    LessTotal(a, c, b);
  }

  // ---- what the classes mean

  function RankSet(cards: seq<Card>): set<int> {
    set c | c in cards :: c.rank as int
  }

  // Three ranks in a row, or ace, two and three.
  ghost predicate InSequence(cards: seq<Card>) {
    RankSet(cards) == {14, 2, 3} || exists lo: int :: RankSet(cards) == Three(lo)
  }

  function Three(lo: int): set<int> {
    {lo, lo + 1, lo + 2}
  }

  lemma RanksAre(cards: seq<Card>)
    requires |cards| == 3
    ensures RankSet(cards) == {Ranks(cards)[0], Ranks(cards)[1], Ranks(cards)[2]}
  {
    var r := Ranks(cards);
    assert RankSet(cards) == {cards[0].rank as int, cards[1].rank as int, cards[2].rank as int};
  }

  lemma ThreeInRow(x: int, y: int, z: int, lo: int)
    requires x >= y >= z
    ensures {x, y, z} == Three(lo) <==> x == lo + 2 && y == lo + 1 && z == lo
  {
    var s := {x, y, z};
    if s == Three(lo) {
      assert lo in s && lo + 1 in s && lo + 2 in s;
      assert x in Three(lo) && z in Three(lo);
    }
  }

  lemma SequenceMeans(policy: AcePolicy, cards: seq<Card>)
    requires |cards| == 3
    ensures SequenceValue(policy, Ranks(cards)).Some? <==> InSequence(cards)
  {
    RanksAre(cards);
    var r := Ranks(cards);
    var s := RankSet(cards);
    hide RankSet, Ranks;
    assert r == [r[0], r[1], r[2]];
    ThreeInRow(r[0], r[1], r[2], r[2]);
    forall lo: int ensures s == Three(lo) <==> r[0] == lo + 2 && r[1] == lo + 1 && r[2] == lo {
      ThreeInRow(r[0], r[1], r[2], lo);
    }
    AceSet(r[0], r[1], r[2]);
  }

  lemma AceSet(x: int, y: int, z: int)
    requires x >= y >= z
    ensures {x, y, z} == {14, 2, 3} <==> x == 14 && y == 3 && z == 2
  {
    var s := {x, y, z};
    if s == {14, 2, 3} {
      assert 14 in s && 2 in s && 3 in s;
      assert x in {14, 2, 3} && z in {14, 2, 3};
    }
  }

  // Each class, by the set of ranks and the suits alone.
  lemma ClassMeans(policy: AcePolicy, cards: seq<Card>)
    requires |cards| == 3
    ensures var rank := Grade(policy, cards).rank; var distinct := |RankSet(cards)|;
            && (rank == Trail <==> distinct == 1)
            && (rank == PureSequence <==> InSequence(cards) && SameSuit(cards))
            && (rank == Sequence <==> InSequence(cards) && !SameSuit(cards))
            && (rank == Color <==> distinct > 1 && !InSequence(cards) && SameSuit(cards))
            && (rank == Pair <==> distinct == 2 && !SameSuit(cards))
            && (rank == HighCard <==> distinct == 3 && !InSequence(cards) && !SameSuit(cards))
  {
    RanksAre(cards);
    SequenceMeans(policy, cards);
    var r := Ranks(cards);
    DistinctCount(r);
    hide InSequence, RankSet, Ranks;
  }

  lemma DistinctCount(r: seq<int>)
    requires |r| == 3 && r[0] >= r[1] >= r[2]
    ensures |{r[0], r[1], r[2]}| == 1 + (if r[0] != r[1] then 1 else 0) + (if r[1] != r[2] then 1 else 0)
  {
    if r[0] == r[1] {
      assert {r[0], r[1], r[2]} == {r[0]} + {r[2]};
      if r[1] == r[2] { assert {r[0], r[1], r[2]} == {r[0]}; }
    } else if r[1] == r[2] {
      assert {r[0], r[1], r[2]} == {r[0]} + {r[2]};
    }
  }

  // ---- suits and seating do not matter

  function Renamed(card: Card, rename: Suit -> Suit): Card {
    Card(rename(card.suit), card.rank)
  }

  // Renaming the suits and taking the cards in any order i, j, k changes nothing.
  lemma SuitBlind(policy: AcePolicy, cards: seq<Card>, rename: Suit -> Suit, i: nat, j: nat, k: nat)
    requires |cards| == 3 && forall s, t :: rename(s) == rename(t) ==> s == t
    requires i < 3 && j < 3 && k < 3 && i != j && j != k && i != k
    ensures Grade(policy, [Renamed(cards[i], rename), Renamed(cards[j], rename), Renamed(cards[k], rename)])
            == Grade(policy, cards)
  {
    var other := [Renamed(cards[i], rename), Renamed(cards[j], rename), Renamed(cards[k], rename)];
    AnyOrder(cards[0].rank, cards[1].rank, cards[2].rank);
    assert Ranks(other) == Ranks(cards);
    assert SameSuit(other) <==> SameSuit(cards);
    hide Ranks, SameSuit;
  }

  lemma AnyOrder(a: int, b: int, c: int)
    ensures Descending(a, b, c) == Descending(a, c, b) == Descending(b, a, c)
            == Descending(b, c, a) == Descending(c, a, b) == Descending(c, b, a)
  {
  }

  // ---- where A-2-3 stands

  function Run(high: int): seq<int>
    requires 4 <= high <= 14
  {
    [high, high - 1, high - 2]
  }

  // Above every other sequence, just below A-K-Q, or below all of them.
  lemma AceLow(policy: AcePolicy, high: int)
    requires 4 <= high <= 14
    ensures var low := SequenceValue(policy, [14, 3, 2]).value; var other := SequenceValue(policy, Run(high)).value;
            match policy
            case AkqFirstA23Second => (low > other <==> high < 14) && low != other
            case A23First => low > other
            case A23Lowest => low < other
  {
  }

  // Among the rest the higher sequence wins.
  lemma RunsInOrder(policy: AcePolicy, high: int, higher: int)
    requires 4 <= high < higher <= 14
    ensures SequenceValue(policy, Run(high)).value < SequenceValue(policy, Run(higher)).value
  {
  }

  // ---- the best of several

  // max() of nonempty results.
  function Best(results: seq<HandResult>): (r: HandResult)
    requires results != []
    ensures r in results
  {
    if |results| == 1 then results[0]
    else
      var b := Best(results[..|results| - 1]);
      if Less(b, results[|results| - 1]) then results[|results| - 1] else b
  }

  lemma {:induction false} BestIsUnbeaten(results: seq<HandResult>)
    requires results != []
    ensures forall i :: 0 <= i < |results| ==> !Less(Best(results), results[i])
    ensures forall i :: 0 <= i < |results| ==>
              (results[i] == Best(results) <==> forall j :: 0 <= j < |results| ==> !Less(results[i], results[j]))
  {
    hide Less;
    if |results| > 1 {
      BestIsUnbeaten(results[..|results| - 1]);
      var b, last := Best(results[..|results| - 1]), results[|results| - 1];
      forall i | 0 <= i < |results| ensures !Less(Best(results), results[i]) {
        LessTotal(b, last, results[i]);
        LessTotal(last, results[i], b);
        LessTotal(last, last, last);
        LessTotal(results[i], b, last);
      }
    } else {
      LessTotal(results[0], results[0], results[0]);
    }
    var best := Best(results);
    forall i | 0 <= i < |results|
      ensures results[i] == best <==> forall j :: 0 <= j < |results| ==> !Less(results[i], results[j])
    {
      LessTotal(results[i], best, best);
      var k :| 0 <= k < |results| && results[k] == best;
    }
  }
}
