// Physical cards of the three-pack Marriage deck, ranks in sequence order, and
// the faces that are wild in a round.
module MarriageCards {
  import opened Prelude
  import opened Cards

  datatype Identity = Identity(suit: Suit, rank: Rank)

  // A card's id is a function of its face and pack (or Man index), so an id is
  // identified with the card it names. A client id that names no card of the
  // deck is a value that is not Canonical.
  datatype PhysicalCard = Standard(face: Identity, pack: nat) | Man(index: nat)

  type CardId = PhysicalCard

  predicate Canonical(c: PhysicalCard) {
    match c
    case Standard(_, pack) => pack < 3
    case Man(index) => index < 3
  }

  datatype AcePolicy = LowOnly | LowOrHigh

  // The two rank orders a sequence may run in: A 2 .. K, and 2 .. K A.
  datatype RankOrder = AceLow | AceHigh

  const LOW_ORDER: seq<Rank> := [14, 2, 3, 4, 5, 6, 7, 8, 9, 10, 11, 12, 13]

  function RanksInOrder(order: RankOrder): seq<Rank> {
    match order
    case AceLow => LOW_ORDER
    case AceHigh => LOW_ORDER[1..] + LOW_ORDER[..1]
  }

  function Orders(policy: AcePolicy): seq<RankOrder> {
    if policy == LowOrHigh then [AceLow, AceHigh] else [AceLow]
  }

  // order.index(rank)
  function Position(order: RankOrder, rank: Rank): (i: nat)
    ensures i < 13
  {
    if rank == ACE then (if order == AceHigh then 12 else 0)
    else if order == AceHigh then rank - 2 else rank - 1
  }

  function RankAt(order: RankOrder, i: nat): (rank: Rank)
    requires i < 13
    ensures Position(order, rank) == i
  {
    if order == AceHigh then (if i == 12 then 14 else i + 2)
    else if i == 0 then 14 else i + 1
  }

  lemma PositionIsIndex(order: RankOrder, rank: Rank)
    ensures |RanksInOrder(order)| == 13
    ensures RanksInOrder(order)[Position(order, rank)] == rank
    ensures RankAt(order, Position(order, rank)) == rank
  {
  }

  // ---- Maal: the faces around the round's indicator

  datatype MaalView = MaalView(tiplu: Identity, jhiplu: Identity, poplu: Identity)

  function LowerRank(rank: Rank): Rank {
    RankAt(AceLow, (Position(AceLow, rank) + 12) % 13)
  }

  function UpperRank(rank: Rank): Rank {
    RankAt(AceLow, (Position(AceLow, rank) + 1) % 13)
  }

  function Maal(tiplu: PhysicalCard): MaalView
    requires tiplu.Standard?
  {
    MaalView(tiplu.face,
             Identity(tiplu.face.suit, LowerRank(tiplu.face.rank)),
             Identity(tiplu.face.suit, UpperRank(tiplu.face.rank)))
  }

  // Man cards, every card of the indicator's rank, and its two suited neighbours.
  predicate Wild(c: PhysicalCard, tiplu: PhysicalCard)
    requires tiplu.Standard?
  {
    || c.Man?
    || c.face.rank == tiplu.face.rank
    || c.face == Maal(tiplu).jhiplu
    || c.face == Maal(tiplu).poplu
  }

  // The thirteen ranks in the order A 2 .. K. Going round, King meets Ace.
  function RankTuple(): (r: seq<Rank>)
    ensures |r| == 13
  {
    [14, 2, 3, 4, 5, 6, 7, 8, 9, 10, 11, 12, 13]
  }

  lemma TupleAt(i: nat)
    requires i < 13
    ensures RankTuple()[i] == if i == 0 then 14 else i + 1
    ensures RanksInOrder(AceLow)[i] == RankTuple()[i]
  {
  }

  // The ranks next to each other in the tuple, its ends included.
  predicate NextInTuple(lower: Rank, upper: Rank) {
    exists i, j :: 0 <= i < 13 && j == (i + 1) % 13 && RankTuple()[i] == lower && RankTuple()[j] == upper
  }

  // The rank below and the rank above are the neighbours in the tuple.
  lemma NeighboursInTuple(i: nat)
    requires i < 13
    ensures |RanksInOrder(AceLow)| == 13
    ensures UpperRank(RanksInOrder(AceLow)[i]) == RanksInOrder(AceLow)[(i + 1) % 13]
    ensures LowerRank(RanksInOrder(AceLow)[(i + 1) % 13]) == RanksInOrder(AceLow)[i]
    ensures RanksInOrder(AceLow)[i] == RankTuple()[i] && RanksInOrder(AceLow)[(i + 1) % 13] == RankTuple()[(i + 1) % 13]
  {
    hide RankTuple, RanksInOrder, LowerRank, UpperRank;
    TupleAt(i);
    TupleAt((i + 1) % 13);
    TupleSize();
    NextPlace(i);
  }

  lemma NextPlace(i: nat)
    requires i < 13
    ensures var rank: Rank := if i == 0 then 14 else i + 1;
            var next: Rank := if i == 12 then 14 else i + 2;
            UpperRank(rank) == next && LowerRank(next) == rank
  {
    hide RankAt, Position;
    PlaceOf(i);
    PlaceOf(if i == 12 then 0 else i + 1);
  }

  lemma PlaceOf(i: nat)
    requires i < 13
    ensures var rank: Rank := if i == 0 then 14 else i + 1; Position(AceLow, rank) == i && RankAt(AceLow, i) == rank
  {
  }

  lemma TupleSize()
    ensures |RanksInOrder(AceLow)| == 13
  {
  }

  lemma NeighboursAre(rank: Rank, other: Rank)
    ensures LowerRank(rank) == other <==> NextInTuple(other, rank)
    ensures UpperRank(rank) == other <==> NextInTuple(rank, other)
  {
    hide RankTuple, RanksInOrder, LowerRank, UpperRank;
    var p := Position(AceLow, rank);
    var before := if p == 0 then 12 else p - 1;
    TupleAt(p);
    assert RankTuple()[p] == rank && (before + 1) % 13 == p;
    NeighboursInTuple(p);
    NeighboursInTuple(before);
    if NextInTuple(other, rank) {
      var i, j :| 0 <= i < 13 && j == (i + 1) % 13 && RankTuple()[i] == other && RankTuple()[j] == rank;
      NeighboursInTuple(i);
    }
    if NextInTuple(rank, other) {
      var i, j :| 0 <= i < 13 && j == (i + 1) % 13 && RankTuple()[i] == rank && RankTuple()[j] == other;
      NeighboursInTuple(i);
    }
  }

  // A card is wild exactly when it is a Man, has the indicator's rank, or has its
  // suit and a rank next to its rank, King and Ace being next to each other.
  lemma WildMeans(c: PhysicalCard, tiplu: PhysicalCard)
    requires tiplu.Standard?
    ensures Wild(c, tiplu) <==>
            || c.Man?
            || c.face.rank == tiplu.face.rank
            || (c.face.suit == tiplu.face.suit
                && (NextInTuple(c.face.rank, tiplu.face.rank) || NextInTuple(tiplu.face.rank, c.face.rank)))
  {
    if c.Standard? { NeighboursAre(tiplu.face.rank, c.face.rank); }
  }

  // The three Maal faces are the indicator's and its two neighbours in its suit.
  lemma MaalMeans(tiplu: PhysicalCard)
    requires tiplu.Standard?
    ensures var m := Maal(tiplu); var suit := tiplu.face.suit;
            && m.tiplu == tiplu.face && m.jhiplu.suit == suit && m.poplu.suit == suit
            && NextInTuple(m.jhiplu.rank, tiplu.face.rank) && NextInTuple(tiplu.face.rank, m.poplu.rank)
    ensures tiplu.face.rank == 7 ==> Maal(tiplu).jhiplu.rank == 6 && Maal(tiplu).poplu.rank == 8
    ensures tiplu.face.rank == ACE ==> Maal(tiplu).jhiplu.rank == 13 && Maal(tiplu).poplu.rank == 2
  {
    hide NextInTuple;
    NeighboursAre(tiplu.face.rank, LowerRank(tiplu.face.rank));
    NeighboursAre(tiplu.face.rank, UpperRank(tiplu.face.rank));
  }

  // A run may be read in the order A 2 .. K under every policy, and in the order
  // 2 .. K A exactly when the ace may be high.
  lemma OrdersAre(policy: AcePolicy)
    ensures AceLow in Orders(policy) && (AceHigh in Orders(policy) <==> policy == LowOrHigh)
    ensures RanksInOrder(AceLow) == [14, 2, 3, 4, 5, 6, 7, 8, 9, 10, 11, 12, 13]
    ensures RanksInOrder(AceHigh) == [2, 3, 4, 5, 6, 7, 8, 9, 10, 11, 12, 13, 14]
  {
  }

  // ---- ordering by id

  // The order of the id strings "D<pack>:<rank><suit>" and "MAN:<i>": within a
  // pack "10" sorts before "2".."9", which sort before A, J, K, Q.
  function LabelOrder(rank: Rank): int {
    if rank == 10 then 0
    else if rank < 10 then rank - 1
    else if rank == 14 then 9
    else if rank == 11 then 10
    else if rank == 13 then 11
    else 12
  }

  function IdOrder(c: PhysicalCard): int {
    match c
    case Standard(face, pack) => 52 * pack + 4 * LabelOrder(face.rank) + SuitNumber(face.suit)
    case Man(index) => 156 + index
  }

  predicate InIdOrder(s: seq<PhysicalCard>) {
    forall i, j :: 0 <= i < j < |s| ==> IdOrder(s[i]) <= IdOrder(s[j])
  }

  function InsertById(c: PhysicalCard, s: seq<PhysicalCard>): (r: seq<PhysicalCard>)
    requires InIdOrder(s)
    ensures InIdOrder(r) && multiset(r) == multiset(s) + multiset{c}
  {
    if s == [] then [c]
    else if IdOrder(c) <= IdOrder(s[0]) then [c] + s
    else
      var rest := InsertById(c, s[1..]);
      InsertByIdKeeps(c, s, rest);
      [s[0]] + rest
  }

  lemma InsertByIdKeeps(c: PhysicalCard, s: seq<PhysicalCard>, rest: seq<PhysicalCard>)
    requires s != [] && InIdOrder(s) && IdOrder(s[0]) < IdOrder(c)
    requires InIdOrder(rest) && multiset(rest) == multiset(s[1..]) + multiset{c}
    ensures InIdOrder([s[0]] + rest)
    ensures multiset([s[0]] + rest) == multiset(s) + multiset{c}
  {
    assert s == [s[0]] + s[1..];
    forall i | 0 <= i < |rest| ensures IdOrder(s[0]) <= IdOrder(rest[i]) {
      assert rest[i] in multiset(rest);
      if rest[i] != c { assert rest[i] in s[1..]; }
    }
  }

  // sorted(cards, key=card_id)
  function SortedById(s: seq<PhysicalCard>): (r: seq<PhysicalCard>)
    ensures InIdOrder(r) && multiset(r) == multiset(s)
  {
    if s == [] then []
    else
      assert s == s[..|s| - 1] + [s[|s| - 1]];
      InsertById(s[|s| - 1], SortedById(s[..|s| - 1]))
  }
}
