// Points once a round is finished: what a hand is worth, and who pays whom.
module MarriageScoring {
  import opened Prelude
  import opened Cards
  import opened MarriageCards
  import opened MarriageModels
  import opened MarriageState
  import opened MarriageAudit
  import opened MarriageInvariant
  import opened MarriageEngine

  datatype Label = MarriageItem | TipluItem | JhipluItem | PopluItem | ManItem | AlterItem | TunnelaItem
  datatype ScoreItem = ScoreItem(name: Label, count: nat, points: nat, ids: seq<CardId>)
  datatype PlayerScore = PlayerScore(
    id: string, seenMaal: bool, eligible: bool, items: seq<ScoreItem>, points: nat, maalNet: int, payment: int, net: int)
  datatype RoundScore = RoundScore(winner: string, totalMaal: nat, players: seq<PlayerScore>)

  // What the ScoringRules constructor checks of the tables.
  predicate TablesFormed(r: ScoringRules) {
    |r.tiplu| == 3 && |r.jhiplu| == 3 && |r.poplu| == 3 && |r.alter| == 3 && |r.man| == 3 && |r.marriage| == 3
  }

  predicate Physical(hand: seq<PhysicalCard>) {
    NoDup(hand) && forall c :: c in hand ==> Canonical(c)
  }

  // ---- faces

  // None for a Man card.
  function FaceOf(c: PhysicalCard): Option<Identity> {
    if c.Standard? then Some(c.face) else None
  }

  function WithFace(cards: seq<PhysicalCard>, face: Option<Identity>): (r: seq<PhysicalCard>)
    ensures forall c :: c in r <==> c in cards && FaceOf(c) == face
    ensures multiset(r) <= multiset(cards)
  {
    if cards == [] then []
    else
      assert cards == cards[..|cards| - 1] + [cards[|cards| - 1]];
      WithFace(cards[..|cards| - 1], face) + if FaceOf(cards[|cards| - 1]) == face then [cards[|cards| - 1]] else []
  }

  // A hand's cards of one face, in id order.
  function Copies(hand: seq<PhysicalCard>, face: Option<Identity>): seq<PhysicalCard> {
    WithFace(SortedById(hand), face)
  }

  lemma CopiesAre(hand: seq<PhysicalCard>, face: Option<Identity>)
    requires Physical(hand)
    ensures NoDup(Copies(hand, face)) && |Copies(hand, face)| <= 3
    ensures forall c :: c in Copies(hand, face) <==> c in hand && FaceOf(c) == face
  {
    hide Physical, NoDup, FaceOf;
    CanonicalHand(hand);
    var copies := Copies(hand, face);
    PermutationKeeps(SortedById(hand), hand);
    NoDupCounts(SortedById(hand));
    NoDupCounts(copies);
    forall c ensures c in copies <==> c in hand && FaceOf(c) == face {
      assert c in hand <==> c in Elems(hand);
      assert c in SortedById(hand) <==> c in Elems(SortedById(hand));
    }
    AtMostThree(copies, face);
  }

  lemma CanonicalHand(hand: seq<PhysicalCard>)
    requires Physical(hand)
    ensures NoDup(hand) && forall c :: c in hand ==> Canonical(c)
  {
  }

  lemma AtMostThree(copies: seq<PhysicalCard>, face: Option<Identity>)
    requires NoDup(copies) && forall c :: c in copies ==> Canonical(c) && FaceOf(c) == face
    ensures |copies| <= 3
  {
    var all := if face.Some? then {Standard(face.value, 0), Standard(face.value, 1), Standard(face.value, 2)}
        else {Man(0), Man(1), Man(2)};
    assert |all| <= 3;
    NoDupSize(copies);
    SubsetFull(Elems(copies), all);
  }

  // by_face.get(face, [])
  function Listed(byFace: map<Option<Identity>, seq<CardId>>, face: Option<Identity>): seq<CardId> {
    if face in byFace then byFace[face] else []
  }

  // by_face, filled card by card.
  method FillByFace(cards: seq<PhysicalCard>) returns (byFace: map<Option<Identity>, seq<CardId>>)
    ensures forall face :: Listed(byFace, face) == WithFace(cards, face)
  {
    byFace := map[];
    for k := 0 to |cards|
      invariant forall face :: Listed(byFace, face) == WithFace(cards[..k], face)
    {
      var face := FaceOf(cards[k]);
      ghost var before := byFace;
      byFace := byFace[face := Listed(byFace, face) + [cards[k]]];
      forall f ensures Listed(byFace, f) == WithFace(cards[..k + 1], f) { NextListed(cards, k, before, f); }
    }
    assert cards[..|cards|] == cards;
  }

  lemma NextListed(cards: seq<PhysicalCard>, k: nat, before: map<Option<Identity>, seq<CardId>>, f: Option<Identity>)
    requires k < |cards| && Listed(before, f) == WithFace(cards[..k], f)
    ensures Listed(before[FaceOf(cards[k]) := Listed(before, FaceOf(cards[k])) + [cards[k]]],
            f) == WithFace(cards[..k + 1], f)
  {
    assert cards[..k + 1][..k] == cards[..k];
  }

  // ---- values

  // A table lists totals for one, two and three copies.
  function Value(table: seq<nat>, count: nat): nat
    requires count <= |table|
  {
    if count == 0 then 0 else table[count - 1]
  }

  datatype Counts = Counts(tiplu: nat, jhiplu: nat, poplu: nat)

  function Least(c: Counts): nat {
    if c.tiplu <= c.jhiplu && c.tiplu <= c.poplu then c.tiplu else if c.jhiplu <= c.poplu then c.jhiplu else c.poplu
  }

  // What the three faces are worth with n of each joined into Marriages.
  function GroupedValue(r: ScoringRules, c: Counts, n: nat): nat
    requires TablesFormed(r) && c.tiplu <= 3 && c.jhiplu <= 3 && c.poplu <= 3 && n <= Least(c)
  {
    Value(r.marriage, n) + Value(r.tiplu, c.tiplu - n) + Value(r.jhiplu, c.jhiplu - n) + Value(r.poplu, c.poplu - n)
  }

  // The smallest number of Marriages up to m worth the most.
  function BestCount(r: ScoringRules, c: Counts, m: nat): (n: nat)
    requires TablesFormed(r) && c.tiplu <= 3 && c.jhiplu <= 3 && c.poplu <= 3 && m <= Least(c)
    ensures n <= m
    ensures forall k: nat :: k <= m ==> GroupedValue(r, c, k) <= GroupedValue(r, c, n)
    ensures forall k: nat :: k < n ==> GroupedValue(r, c, k) < GroupedValue(r, c, n)
  {
    if m == 0 then 0
    else
      var n := BestCount(r, c, m - 1);
      if GroupedValue(r, c, m) > GroupedValue(r, c, n) then m else n
  }

  // ---- items

  function Item(name: Label, table: seq<nat>, ids: seq<CardId>): seq<ScoreItem>
    requires |ids| <= |table|
  {
    if ids == [] then [] else [ScoreItem(name, |ids|, Value(table, |ids|), ids)]
  }

  function CountsIn(hand: seq<PhysicalCard>, maal: MaalView): Counts {
    Counts(|Copies(hand, Some(maal.tiplu))|, |Copies(hand, Some(maal.jhiplu))|, |Copies(hand, Some(maal.poplu))|)
  }

  lemma CountsSmall(hand: seq<PhysicalCard>, maal: MaalView)
    requires Physical(hand)
    ensures var c := CountsIn(hand, maal); c.tiplu <= 3 && c.jhiplu <= 3 && c.poplu <= 3
  {
    CopiesAre(hand, Some(maal.tiplu));
    CopiesAre(hand, Some(maal.jhiplu));
    CopiesAre(hand, Some(maal.poplu));
  }

  function Marriages(hand: seq<PhysicalCard>, maal: MaalView, r: ScoringRules): (n: nat)
    requires Physical(hand) && TablesFormed(r)
    ensures var c := CountsIn(hand, maal); n <= c.tiplu <= 3 && n <= c.jhiplu <= 3 && n <= c.poplu <= 3
  {
    CountsSmall(hand, maal);
    BestCount(r, CountsIn(hand, maal), Least(CountsIn(hand, maal)))
  }

  function Joining(n: nat, points: nat, ids: seq<CardId>): seq<ScoreItem> {
    if n == 0 then [] else [ScoreItem(MarriageItem, n, points, ids)]
  }

  // Marriage, Tiplu, Jhiplu and Poplu.
  function MaalItems(hand: seq<PhysicalCard>, maal: MaalView, r: ScoringRules): seq<ScoreItem>
    requires Physical(hand) && TablesFormed(r)
  {
    var n := Marriages(hand, maal, r);
    var t, j, p := Copies(hand, Some(maal.tiplu)), Copies(hand, Some(maal.jhiplu)), Copies(hand, Some(maal.poplu));
    Joining(n, Value(r.marriage, n), t[..n] + j[..n] + p[..n])
    + Item(TipluItem, r.tiplu, t[n..]) + Item(JhipluItem, r.jhiplu, j[n..]) + Item(PopluItem, r.poplu, p[n..])
  }

  function ManItems(hand: seq<PhysicalCard>, r: ScoringRules): seq<ScoreItem>
    requires Physical(hand) && TablesFormed(r)
  {
    CopiesAre(hand, None);
    Item(ManItem, r.man, Copies(hand, None))
  }

  function Alternate(suit: Suit): Suit {
    match suit
    case Hearts => Diamonds
    case Diamonds => Hearts
    case Spades => Clubs
    case Clubs => Spades
  }

  function AlterFace(maal: MaalView): Identity {
    Identity(Alternate(maal.tiplu.suit), maal.tiplu.rank)
  }

  function AlterItems(hand: seq<PhysicalCard>, maal: MaalView, r: ScoringRules): seq<ScoreItem>
    requires Physical(hand) && TablesFormed(r)
  {
    CopiesAre(hand, Some(AlterFace(maal)));
    var ids := Copies(hand, Some(AlterFace(maal)));
    if Value(r.alter, |ids|) == 0 then [] else Item(AlterItem, r.alter, ids)
  }

  function CardItems(hand: seq<PhysicalCard>, maal: Option<MaalView>, r: ScoringRules): seq<ScoreItem>
    requires Physical(hand) && TablesFormed(r)
  {
    (if maal.Some? then MaalItems(hand, maal.value, r) else []) + ManItems(hand, r)
    + (if maal.Some? then AlterItems(hand, maal.value, r) else [])
  }

  // ---- the Tunnela bonus

  function TunnelaMelds(melds: seq<Meld>): seq<Meld> {
    if melds == [] then []
    else (if melds[0].kind == Tunnela then [melds[0]] else []) + TunnelaMelds(melds[1..])
  }

  // The faces of a list of cards, each where it first occurs.
  function FaceOrder(cards: seq<PhysicalCard>): (r: seq<Identity>)
    ensures forall f :: f in r ==> exists c :: c in cards && FaceOf(c) == Some(f)
    ensures NoDup(r)
  {
    if cards == [] then []
    else
      var before, last := FaceOrder(cards[..|cards| - 1]), cards[|cards| - 1];
      assert last in cards && forall c :: c in cards[..|cards| - 1] ==> c in cards;
      if last.Standard? && last.face !in before then before + [last.face] else before
  }

  function Triples(hand: seq<PhysicalCard>, faces: seq<Identity>): seq<seq<CardId>> {
    if faces == [] then []
    else
      (if |Copies(hand, Some(faces[0]))| == 3 then [Copies(hand, Some(faces[0]))] else []) + Triples(hand, faces[1..])
  }

  function Joined(groups: seq<seq<CardId>>): seq<CardId> {
    if groups == [] then [] else groups[0] + Joined(groups[1..])
  }

  function Bonus(count: nat, each: nat, ids: seq<CardId>): seq<ScoreItem> {
    if count == 0 then [] else [ScoreItem(TunnelaItem, count, count * each, ids)]
  }

  function BonusItems(p: PlayerState, r: ScoringRules): seq<ScoreItem> {
    if r.tunnelaScope == Off then []
    else if r.initialTunnelaDeclaration || r.tunnelaScope == Shown then
      var melds := TunnelaMelds(if r.initialTunnelaDeclaration then p.initialTunnelas else p.shownMelds);
      Bonus(|melds|, r.tunnelaBonus, MeldIds(melds))
    else
      var triples := Triples(p.hand, FaceOrder(SortedById(p.hand)));
      Bonus(|triples|, r.tunnelaBonus, Joined(triples))
  }

  // score_items
  function Items(p: PlayerState, maal: Option<MaalView>, r: ScoringRules): seq<ScoreItem>
    requires Physical(p.hand) && TablesFormed(r)
  {
    if r.maalRequiresSeen && !p.hasSeenMaal then [] else CardItems(p.hand, maal, r) + BonusItems(p, r)
  }

  // The Maal part of it: a Marriage count, then what is left of each face.
  method ScoreFaces(ghost hand: seq<PhysicalCard>, ghost maal: MaalView, r: ScoringRules, t: seq<CardId>,
    j: seq<CardId>, p: seq<CardId>)
    returns (items: seq<ScoreItem>)
    requires Physical(hand) && TablesFormed(r)
    requires t == Copies(hand, Some(maal.tiplu)) && j == Copies(hand, Some(maal.jhiplu))
             && p == Copies(hand, Some(maal.poplu))
    ensures items == MaalItems(hand, maal, r)
  {
    hide Physical, Copies, Value, Joining, Item;
    CountsSmall(hand, maal);
    var counts := Counts(|t|, |j|, |p|);
    var n := BestCount(r, counts, Least(counts));
    items := Joining(n, Value(r.marriage, n), t[..n] + j[..n] + p[..n]);
    items := items + Item(TipluItem, r.tiplu, t[n..]);
    items := items + Item(JhipluItem, r.jhiplu, j[n..]);
    items := items + Item(PopluItem, r.poplu, p[n..]);
  }

  method ScoreCards(hand: seq<PhysicalCard>, maal: Option<MaalView>, r: ScoringRules) returns (items: seq<ScoreItem>)
    requires Physical(hand) && TablesFormed(r)
    ensures items == CardItems(hand, maal, r)
  {
    hide Physical, NoDup, WithFace, Value, MaalItems, Listed;
    var byFace := FillByFace(SortedById(hand));
    items := [];
    if maal.Some? {
      items := ScoreFaces(hand, maal.value, r, Listed(byFace, Some(maal.value.tiplu)),
          Listed(byFace, Some(maal.value.jhiplu)),
                          Listed(byFace, Some(maal.value.poplu)));
    }
    CopiesAre(hand, None);
    items := items + Item(ManItem, r.man, Listed(byFace, None));
    if maal.Some? {
      var face := Some(AlterFace(maal.value));
      CopiesAre(hand, face);
      var alter := Listed(byFace, face);
      if Value(r.alter, |alter|) > 0 { items := items + Item(AlterItem, r.alter, alter); }
    }
  }

  // score_items step by step.
  method ScoreItems(p: PlayerState, maal: Option<MaalView>, r: ScoringRules) returns (items: seq<ScoreItem>)
    requires Physical(p.hand) && TablesFormed(r)
    ensures items == Items(p, maal, r)
  {
    hide Physical, BonusItems, CardItems;
    if r.maalRequiresSeen && !p.hasSeenMaal {
      return [];
    }
    items := ScoreCards(p.hand, maal, r);
    items := items + BonusItems(p, r);
  }

  // ---- no card scores twice

  function ItemIds(items: seq<ScoreItem>): seq<CardId> {
    if items == [] then [] else items[0].ids + ItemIds(items[1..])
  }

  lemma ItemIdsFirst(first: ScoreItem, rest: seq<ScoreItem>)
    ensures ItemIds([]) == [] && ItemIds([first] + rest) == first.ids + ItemIds(rest)
  {
    assert ([first] + rest)[1..] == rest;
  }

  lemma {:induction false} ItemIdsConcat(a: seq<ScoreItem>, b: seq<ScoreItem>)
    ensures ItemIds(a + b) == ItemIds(a) + ItemIds(b)
  {
    hide ItemIds;
    if a == [] {
      assert a + b == b;
      ItemIdsFirst(ScoreItem(ManItem, 0, 0, []), []);
    } else {
      assert a == [a[0]] + a[1..];
      assert a + b == [a[0]] + (a[1..] + b);
      ItemIdsConcat(a[1..], b);
      ItemIdsFirst(a[0], a[1..]);
      ItemIdsFirst(a[0], a[1..] + b);
    }
  }

  lemma ItemIdsOne(name: Label, table: seq<nat>, ids: seq<CardId>)
    requires |ids| <= |table|
    ensures ItemIds(Item(name, table, ids)) == ids
  {
    if ids != [] { assert Item(name, table, ids)[1..] == []; }
  }

  lemma JoiningIs(n: nat, points: nat, ids: seq<CardId>)
    requires n == 0 ==> ids == []
    ensures ItemIds(Joining(n, points, ids)) == ids && Points(Joining(n, points, ids)) == if n == 0 then 0 else points
  {
    if n > 0 { assert Joining(n, points, ids)[1..] == []; }
  }

  lemma FourParts(a: seq<ScoreItem>, b: seq<ScoreItem>, c: seq<ScoreItem>, d: seq<ScoreItem>)
    ensures ItemIds(a + b + c + d) == ItemIds(a) + ItemIds(b) + ItemIds(c) + ItemIds(d)
    ensures Points(a + b + c + d) == Points(a) + Points(b) + Points(c) + Points(d)
  {
    hide ItemIds, Points;
    ItemIdsConcat(a + b + c, d);
    ItemIdsConcat(a + b, c);
    ItemIdsConcat(a, b);
    PointsConcat(a + b + c, d);
    PointsConcat(a + b, c);
    PointsConcat(a, b);
  }

  lemma Rejoined(t: seq<CardId>, j: seq<CardId>, p: seq<CardId>, n: nat)
    requires n <= |t| && n <= |j| && n <= |p|
    ensures multiset(t[..n] + j[..n] + p[..n] + t[n..] + j[n..] + p[n..]) == multiset(t) + multiset(j) + multiset(p)
  {
    assert t == t[..n] + t[n..];
    assert j == j[..n] + j[n..];
    assert p == p[..n] + p[n..];
  }

  // The cards in the four Maal items are the copies of their three faces.
  lemma MaalIds(hand: seq<PhysicalCard>, maal: MaalView, r: ScoringRules)
    requires Physical(hand) && TablesFormed(r)
    ensures multiset(ItemIds(MaalItems(hand, maal, r))) ==
            multiset(Copies(hand, Some(maal.tiplu))) + multiset(Copies(hand, Some(maal.jhiplu)))
            + multiset(Copies(hand, Some(maal.poplu)))
  {
    hide Physical, Copies, Marriages, Value, Joining, Item, ItemIds;
    var n := Marriages(hand, maal, r);
    var t, j, p := Copies(hand, Some(maal.tiplu)), Copies(hand, Some(maal.jhiplu)), Copies(hand, Some(maal.poplu));
    JoiningIs(n, Value(r.marriage, n), t[..n] + j[..n] + p[..n]);
    ItemIdsOne(TipluItem, r.tiplu, t[n..]);
    ItemIdsOne(JhipluItem, r.jhiplu, j[n..]);
    ItemIdsOne(PopluItem, r.poplu, p[n..]);
    FourParts(Joining(n, Value(r.marriage, n), t[..n] + j[..n] + p[..n]),
              Item(TipluItem, r.tiplu, t[n..]), Item(JhipluItem, r.jhiplu, j[n..]), Item(PopluItem, r.poplu, p[n..]));
    Rejoined(t, j, p, n);
  }

  // The five faces that can score are five.
  lemma FacesDiffer(tiplu: PhysicalCard)
    requires tiplu.Standard?
    ensures var m := Maal(tiplu);
            && m.tiplu != m.jhiplu && m.tiplu != m.poplu && m.jhiplu != m.poplu
            && AlterFace(m) != m.tiplu && AlterFace(m) != m.jhiplu && AlterFace(m) != m.poplu
  {
    hide Position, RankAt;
    var i := Position(AceLow, tiplu.face.rank);
    assert Position(AceLow, LowerRank(tiplu.face.rank)) == (i + 12) % 13;
    assert Position(AceLow, UpperRank(tiplu.face.rank)) == (i + 1) % 13;
  }

  lemma CopiesApart(hand: seq<PhysicalCard>, a: Option<Identity>, b: Option<Identity>)
    requires Physical(hand) && a != b
    ensures forall c :: multiset(Copies(hand, a))[c] + multiset(Copies(hand, b))[c] <= 1
  {
    CopiesAre(hand, a);
    CopiesAre(hand, b);
    NoDupCounts(Copies(hand, a));
    NoDupCounts(Copies(hand, b));
    forall c ensures multiset(Copies(hand, a))[c] + multiset(Copies(hand, b))[c] <= 1 {
      assert c in multiset(Copies(hand, a)) <==> c in Copies(hand, a);
      assert c in multiset(Copies(hand, b)) <==> c in Copies(hand, b);
    }
  }

  // Over the Marriage, Tiplu, Jhiplu, Poplu, Man and Alter items together, no
  // physical card is listed twice, and every one listed is held.
  lemma CardsScoreOnce(hand: seq<PhysicalCard>, tiplu: Option<PhysicalCard>, r: ScoringRules)
    requires Physical(hand) && TablesFormed(r) && StandardIndicator(tiplu)
    ensures var items := CardItems(hand, if tiplu.Some? then Some(Maal(tiplu.value)) else None, r);
            NoDup(ItemIds(items)) && forall c :: c in ItemIds(items) ==> c in hand
  {
    hide Physical, NoDup, MaalItems, Maal, Copies;
    var maal := if tiplu.Some? then Some(Maal(tiplu.value)) else None;
    var items := CardItems(hand, maal, r);
    CopiesAre(hand, None);
    ItemIdsOne(ManItem, r.man, Copies(hand, None));
    if maal.None? {
      assert items == ManItems(hand, r);
    } else {
      var m := maal.value;
      MaalIds(hand, m, r);
      var alter := Some(AlterFace(m));
      CopiesAre(hand, alter);
      ItemIdsOne(AlterItem, r.alter, Copies(hand, alter));
      ItemIdsConcat(MaalItems(hand, m, r) + ManItems(hand, r), AlterItems(hand, m, r));
      ItemIdsConcat(MaalItems(hand, m, r), ManItems(hand, r));
      FiveFaces(hand, tiplu.value);
      var ids := ItemIds(items);
      assert multiset(ids) ==
             multiset(ItemIds(MaalItems(hand, m, r))) + multiset(ItemIds(ManItems(hand, r))) + multiset(ItemIds(AlterItems(hand, m, r)));
      assert multiset(ids) <= FaceCards(hand, m);
      NoDupCounts(ids);
      forall c | c in ids ensures c in hand {
        assert c in multiset(ids);
        assert c in FaceCards(hand, m);
      }
    }
  }

  ghost function FaceCards(hand: seq<PhysicalCard>, m: MaalView): multiset<PhysicalCard> {
    multiset(Copies(hand, Some(m.tiplu))) + multiset(Copies(hand, Some(m.jhiplu))) + multiset(Copies(hand, Some(m.poplu)))
    + multiset(Copies(hand, None)) + multiset(Copies(hand, Some(AlterFace(m))))
  }

  lemma FiveFaces(hand: seq<PhysicalCard>, tiplu: PhysicalCard)
    requires Physical(hand) && tiplu.Standard?
    ensures forall c :: FaceCards(hand, Maal(tiplu))[c] <= 1
    ensures forall c :: c in FaceCards(hand, Maal(tiplu)) ==> c in hand
  {
    hide Physical, Copies, Maal;
    var m := Maal(tiplu);
    FacesDiffer(tiplu);
    var faces := [Some(m.tiplu), Some(m.jhiplu), Some(m.poplu), None, Some(AlterFace(m))];
    forall i, j | 0 <= i < j < 5
      ensures forall c :: multiset(Copies(hand, faces[i]))[c] + multiset(Copies(hand, faces[j]))[c] <= 1
    {
      CopiesApart(hand, faces[i], faces[j]);
    }
    forall i | 0 <= i < 5 ensures forall c :: c in Copies(hand, faces[i]) ==> c in hand {
      CopiesAre(hand, faces[i]);
    }
    forall c ensures FaceCards(hand, m)[c] <= 1 && (c in FaceCards(hand, m) ==> c in hand) {
      assert c in Copies(hand, faces[0]) ==> c in hand;
      assert c in Copies(hand, faces[1]) ==> c in hand;
      assert c in Copies(hand, faces[2]) ==> c in hand;
      assert c in Copies(hand, faces[3]) ==> c in hand;
      assert c in Copies(hand, faces[4]) ==> c in hand;
      assert multiset(Copies(hand, faces[0]))[c] + multiset(Copies(hand, faces[1]))[c] <= 1;
      assert multiset(Copies(hand, faces[0]))[c] + multiset(Copies(hand, faces[2]))[c] <= 1;
      assert multiset(Copies(hand, faces[0]))[c] + multiset(Copies(hand, faces[3]))[c] <= 1;
      assert multiset(Copies(hand, faces[0]))[c] + multiset(Copies(hand, faces[4]))[c] <= 1;
      assert multiset(Copies(hand, faces[1]))[c] + multiset(Copies(hand, faces[2]))[c] <= 1;
      assert multiset(Copies(hand, faces[1]))[c] + multiset(Copies(hand, faces[3]))[c] <= 1;
      assert multiset(Copies(hand, faces[1]))[c] + multiset(Copies(hand, faces[4]))[c] <= 1;
      assert multiset(Copies(hand, faces[2]))[c] + multiset(Copies(hand, faces[3]))[c] <= 1;
      assert multiset(Copies(hand, faces[2]))[c] + multiset(Copies(hand, faces[4]))[c] <= 1;
      assert multiset(Copies(hand, faces[3]))[c] + multiset(Copies(hand, faces[4]))[c] <= 1;
    }
  }

  // ---- the best grouping

  function Points(items: seq<ScoreItem>): nat {
    if items == [] then 0 else items[0].points + Points(items[1..])
  }

  lemma {:induction false} PointsConcat(a: seq<ScoreItem>, b: seq<ScoreItem>)
    ensures Points(a + b) == Points(a) + Points(b)
  {
    if a == [] {
      assert a + b == b;
    } else {
      PointsConcat(a[1..], b);
      var c := a + b;
      assert c[0] == a[0] && c[1..] == a[1..] + b;
    }
  }

  datatype Triple = Triple(tiplu: CardId, jhiplu: CardId, poplu: CardId)

  // Marriages that could be put together from a hand at the same time.
  predicate Grouping(hand: seq<PhysicalCard>, maal: MaalView, groups: seq<Triple>) {
    && (forall i :: 0 <= i < |groups| ==>
          && groups[i].tiplu in hand && FaceOf(groups[i].tiplu) == Some(maal.tiplu)
          && groups[i].jhiplu in hand && FaceOf(groups[i].jhiplu) == Some(maal.jhiplu)
          && groups[i].poplu in hand && FaceOf(groups[i].poplu) == Some(maal.poplu))
    && forall i, j :: 0 <= i < j < |groups| ==>
         groups[i].tiplu != groups[j].tiplu && groups[i].jhiplu != groups[j].jhiplu
             && groups[i].poplu != groups[j].poplu
  }

  lemma DistinctCopies(hand: seq<PhysicalCard>, face: Option<Identity>, ids: seq<CardId>)
    requires Physical(hand) && NoDup(ids) && forall i :: 0 <= i < |ids| ==> ids[i] in hand && FaceOf(ids[i]) == face
    ensures |ids| <= |Copies(hand, face)|
  {
    CopiesAre(hand, face);
    NoDupSize(ids);
    NoDupSize(Copies(hand, face));
    SubsetFull(Elems(ids), Elems(Copies(hand, face)));
  }

  lemma GroupingFits(hand: seq<PhysicalCard>, maal: MaalView, groups: seq<Triple>)
    requires Physical(hand) && Grouping(hand, maal, groups)
    ensures |groups| <= Least(CountsIn(hand, maal))
  {
    hide Physical, Copies;
    DistinctCopies(hand, Some(maal.tiplu), seq(|groups|, i requires 0 <= i < |groups| => groups[i].tiplu));
    DistinctCopies(hand, Some(maal.jhiplu), seq(|groups|, i requires 0 <= i < |groups| => groups[i].jhiplu));
    DistinctCopies(hand, Some(maal.poplu), seq(|groups|, i requires 0 <= i < |groups| => groups[i].poplu));
  }

  // No way of putting Marriages together, the cards left over scoring singly,
  // is worth more than the items awarded.
  lemma GroupingIsBest(hand: seq<PhysicalCard>, maal: MaalView, r: ScoringRules, groups: seq<Triple>)
    requires Physical(hand) && TablesFormed(r) && Grouping(hand, maal, groups)
    ensures var c := CountsIn(hand, maal);
            && |groups| <= Least(c) && c.tiplu <= 3 && c.jhiplu <= 3 && c.poplu <= 3
            && GroupedValue(r, c, |groups|) <= Points(MaalItems(hand, maal, r))
  {
    GroupingFits(hand, maal, groups);
    MaalPoints(hand, maal, r);
    hide Physical, Grouping, Copies, Value, Least;
  }

  // The four items together are worth what the chosen grouping is.
  lemma MaalPoints(hand: seq<PhysicalCard>, maal: MaalView, r: ScoringRules)
    requires Physical(hand) && TablesFormed(r)
    ensures CountsIn(hand, maal).tiplu <= 3 && CountsIn(hand, maal).jhiplu <= 3 && CountsIn(hand, maal).poplu <= 3
    ensures Points(MaalItems(hand, maal, r)) == GroupedValue(r, CountsIn(hand, maal), Marriages(hand, maal, r))
  {
    CountsSmall(hand, maal);
    hide Physical, Copies, Value, BestCount;
    var n := Marriages(hand, maal, r);
    var t, j, p := Copies(hand, Some(maal.tiplu)), Copies(hand, Some(maal.jhiplu)), Copies(hand, Some(maal.poplu));
    hide Joining, Item;
    ItemPoints(TipluItem, r.tiplu, t[n..]);
    ItemPoints(JhipluItem, r.jhiplu, j[n..]);
    ItemPoints(PopluItem, r.poplu, p[n..]);
    JoiningIs(n, Value(r.marriage, n), t[..n] + j[..n] + p[..n]);
    NoneIsWorthNothing(r.marriage);
    FourParts(Joining(n, Value(r.marriage, n), t[..n] + j[..n] + p[..n]),
              Item(TipluItem, r.tiplu, t[n..]), Item(JhipluItem, r.jhiplu, j[n..]), Item(PopluItem, r.poplu, p[n..]));
  }

  lemma NoneIsWorthNothing(table: seq<nat>)
    ensures Value(table, 0) == 0
  {
  }

  lemma ItemPoints(name: Label, table: seq<nat>, ids: seq<CardId>)
    requires |ids| <= |table|
    ensures Points(Item(name, table, ids)) == Value(table, |ids|)
  {
    if ids != [] { assert Item(name, table, ids)[1..] == []; }
  }

  // ---- what an item says

  // Count, points and cards of an item, by its name.
  predicate Pays(item: ScoreItem, hand: seq<PhysicalCard>, maal: Option<MaalView>, r: ScoringRules)
    requires TablesFormed(r)
  {
    && 1 <= item.count <= 3 && (forall c :: c in item.ids ==> c in hand) && (maal.None? ==> item.name == ManItem)
    && match item.name
       case ManItem => item.points == r.man[item.count - 1] && |item.ids| == item.count
           && forall c :: c in item.ids ==> c.Man?
       case TipluItem => item.points == r.tiplu[item.count - 1] && AllOfFace(item.ids, item.count, maal.value.tiplu)
       case JhipluItem => item.points == r.jhiplu[item.count - 1] && AllOfFace(item.ids, item.count, maal.value.jhiplu)
       case PopluItem => item.points == r.poplu[item.count - 1] && AllOfFace(item.ids, item.count, maal.value.poplu)
       case AlterItem => item.points == r.alter[item.count - 1] > 0
           && AllOfFace(item.ids, item.count, AlterFace(maal.value))
       case MarriageItem =>
         && item.points == r.marriage[item.count - 1] && |item.ids| == 3 * item.count
         && AllOfFace(item.ids[..item.count], item.count, maal.value.tiplu)
         && AllOfFace(item.ids[item.count..2 * item.count], item.count, maal.value.jhiplu)
         && AllOfFace(item.ids[2 * item.count..], item.count, maal.value.poplu)
       case TunnelaItem => false
  }

  predicate AllOfFace(ids: seq<CardId>, count: nat, face: Identity) {
    |ids| == count && forall c :: c in ids ==> c.Standard? && c.face == face
  }

  lemma ItemPays(name: Label, table: seq<nat>, face: Identity, hand: seq<PhysicalCard>, n: nat)
    requires Physical(hand) && |table| == 3 && n <= |Copies(hand, Some(face))|
    ensures |Copies(hand, Some(face))[n..]| <= 3
    ensures forall item :: item in Item(name, table, Copies(hand, Some(face))[n..]) ==>
              && 1 <= item.count <= 3 && item.name == name && item.points == table[item.count - 1]
              && AllOfFace(item.ids, item.count, face) && forall c :: c in item.ids ==> c in hand
  {
    CopiesAre(hand, Some(face));
    hide Physical, Copies;
    var ids := Copies(hand, Some(face));
    forall c | c in ids[n..] ensures c in ids {}
  }

  lemma MarriagePays(hand: seq<PhysicalCard>, maal: MaalView, r: ScoringRules)
    requires Physical(hand) && TablesFormed(r)
    ensures var n := Marriages(hand, maal, r);
            var t, j, p := Copies(hand, Some(maal.tiplu)), Copies(hand, Some(maal.jhiplu)), Copies(hand, Some(maal.poplu));
            forall item :: item in Joining(n, Value(r.marriage, n), t[..n] + j[..n] + p[..n]) ==>
                Pays(item, hand, Some(maal), r)
  {
    hide Physical, Copies, Marriages;
    var n := Marriages(hand, maal, r);
    var t, j, p := Copies(hand, Some(maal.tiplu)), Copies(hand, Some(maal.jhiplu)), Copies(hand, Some(maal.poplu));
    CopiesAre(hand, Some(maal.tiplu));
    CopiesAre(hand, Some(maal.jhiplu));
    CopiesAre(hand, Some(maal.poplu));
    var ids := t[..n] + j[..n] + p[..n];
    assert ids[..n] == t[..n] && ids[n..2 * n] == j[..n] && ids[2 * n..] == p[..n];
    forall c | c in t[..n] ensures c in t {}
    forall c | c in j[..n] ensures c in j {}
    forall c | c in p[..n] ensures c in p {}
  }

  // Every item lists as many cards of its face as it counts, each held, and pays
  // what its own table lists for that many.
  lemma ItemsPay(hand: seq<PhysicalCard>, tiplu: Option<PhysicalCard>, r: ScoringRules)
    requires Physical(hand) && TablesFormed(r) && StandardIndicator(tiplu)
    ensures var maal := if tiplu.Some? then Some(Maal(tiplu.value)) else None;
            forall item :: item in CardItems(hand, maal, r) ==> Pays(item, hand, maal, r)
  {
    hide Physical, Copies, Maal, Pays, ManItems, AlterItems, MaalItems;
    ManPays(hand, if tiplu.Some? then Some(Maal(tiplu.value)) else None, r);
    if tiplu.Some? {
      MaalPays(hand, Maal(tiplu.value), r);
      AlterPays(hand, Maal(tiplu.value), r);
    }
  }

  lemma ManPays(hand: seq<PhysicalCard>, maal: Option<MaalView>, r: ScoringRules)
    requires Physical(hand) && TablesFormed(r)
    ensures forall item :: item in ManItems(hand, r) ==> Pays(item, hand, maal, r)
  {
    hide Physical, Copies;
    CopiesAre(hand, None);
  }

  lemma MaalPays(hand: seq<PhysicalCard>, m: MaalView, r: ScoringRules)
    requires Physical(hand) && TablesFormed(r)
    ensures forall item :: item in MaalItems(hand, m, r) ==> Pays(item, hand, Some(m), r)
  {
    hide Physical, Copies, Marriages, Joining, Item;
    var n := Marriages(hand, m, r);
    MarriagePays(hand, m, r);
    ItemPays(TipluItem, r.tiplu, m.tiplu, hand, n);
    ItemPays(JhipluItem, r.jhiplu, m.jhiplu, hand, n);
    ItemPays(PopluItem, r.poplu, m.poplu, hand, n);
  }

  lemma AlterPays(hand: seq<PhysicalCard>, m: MaalView, r: ScoringRules)
    requires Physical(hand) && TablesFormed(r)
    ensures forall item :: item in AlterItems(hand, m, r) ==> Pays(item, hand, Some(m), r)
  {
    CopiesAre(hand, Some(AlterFace(m)));
    ItemPays(AlterItem, r.alter, AlterFace(m), hand, 0);
    assert Copies(hand, Some(AlterFace(m)))[0..] == Copies(hand, Some(AlterFace(m)));
  }

  // The Alter is the indicator's rank in the other suit of its colour.
  lemma AlterIsSameColour(maal: MaalView)
    ensures var a := AlterFace(maal);
            && a.rank == maal.tiplu.rank && a.suit != maal.tiplu.suit
            && (a.suit == Hearts || a.suit == Diamonds <==> maal.tiplu.suit == Hearts || maal.tiplu.suit == Diamonds)
  {
  }

  // Every held Man and every held card of the three Maal faces is in an item.
  lemma NothingUnscored(hand: seq<PhysicalCard>, tiplu: PhysicalCard, r: ScoringRules, c: PhysicalCard)
    requires Physical(hand) && TablesFormed(r) && tiplu.Standard? && c in hand
    requires var m := Maal(tiplu); c.Man? || c.face == m.tiplu || c.face == m.jhiplu || c.face == m.poplu
    ensures c in ItemIds(CardItems(hand, Some(Maal(tiplu)), r))
  {
    hide Physical, Copies, Maal, MaalItems, ItemIds;
    var m := Maal(tiplu);
    CopiesAre(hand, None);
    CopiesAre(hand, Some(m.tiplu));
    CopiesAre(hand, Some(m.jhiplu));
    CopiesAre(hand, Some(m.poplu));
    MaalIds(hand, m, r);
    ItemIdsOne(ManItem, r.man, Copies(hand, None));
    ItemIdsConcat(MaalItems(hand, m, r) + ManItems(hand, r), AlterItems(hand, m, r));
    ItemIdsConcat(MaalItems(hand, m, r), ManItems(hand, r));
    assert c in Copies(hand, FaceOf(c));
    assert c in multiset(ItemIds(MaalItems(hand, m, r))) || c in ItemIds(ManItems(hand, r));
  }

  // ---- what the bonus counts

  // All three copies of a card are held.
  predicate Tripled(hand: seq<PhysicalCard>, c: PhysicalCard) {
    c.Standard? && c in hand && forall pack: nat :: pack < 3 ==> Standard(c.face, pack) in hand
  }

  lemma ThreeCopies(hand: seq<PhysicalCard>, face: Identity)
    requires Physical(hand)
    ensures |Copies(hand, Some(face))| == 3 <==> forall pack: nat :: pack < 3 ==> Standard(face, pack) in hand
  {
    hide Physical, Copies;
    CopiesAre(hand, Some(face));
    CanonicalHand(hand);
    var ids := Copies(hand, Some(face));
    var all := {Standard(face, 0), Standard(face, 1), Standard(face, 2)};
    NoDupSize(ids);
    forall c | c in Elems(ids) ensures c in all {}
    SubsetFull(Elems(ids), all);
    assert |all| == 3;
  }

  lemma {:induction false} TriplesAre(hand: seq<PhysicalCard>, faces: seq<Identity>)
    requires Physical(hand) && NoDup(faces)
    ensures |Joined(Triples(hand, faces))| == 3 * |Triples(hand, faces)| && NoDup(Joined(Triples(hand, faces)))
    ensures forall c :: c in Joined(Triples(hand, faces)) <==> Tripled(hand, c) && c.face in faces
  {
    hide Physical, Copies, NoDup;
    if faces == [] {
      NothingJoined();
    } else {
      assert faces == [faces[0]] + faces[1..];
      NoDupConcat([faces[0]], faces[1..]);
      TriplesAre(hand, faces[1..]);
      ThreeCopies(hand, faces[0]);
      CopiesAre(hand, Some(faces[0]));
      CanonicalHand(hand);
      var rest := Triples(hand, faces[1..]);
      var ids := Copies(hand, Some(faces[0]));
      assert faces[0] in Elems([faces[0]]);
      assert faces[0] in faces[1..] <==> faces[0] in Elems(faces[1..]);
      if |ids| == 3 {
        assert Triples(hand, faces) == [ids] + rest;
        assert ([ids] + rest)[1..] == rest;
        assert Joined(Triples(hand, faces)) == ids + Joined(rest);
        NoDupConcat(ids, Joined(rest));
      } else {
        assert Triples(hand, faces) == rest;
      }
    }
  }

  lemma NothingJoined()
    ensures Joined([]) == [] && NoDup<CardId>([])
  {
  }

  lemma {:induction false} AllFacesListed(cards: seq<PhysicalCard>)
    ensures forall c :: c in cards && c.Standard? ==> c.face in FaceOrder(cards)
  {
    if cards != [] {
      AllFacesListed(cards[..|cards| - 1]);
      assert cards == cards[..|cards| - 1] + [cards[|cards| - 1]];
    }
  }

  lemma {:induction false} TunnelasCounted(melds: seq<Meld>)
    ensures |TunnelaMelds(melds)| == multiset(Kinds(melds))[Tunnela]
    ensures forall m :: m in TunnelaMelds(melds) <==> m in melds && m.kind == Tunnela
  {
    if melds != [] {
      TunnelasCounted(melds[1..]);
      assert melds == [melds[0]] + melds[1..];
      assert Kinds(melds) == [melds[0].kind] + Kinds(melds[1..]);
    }
  }

  // The bonus: so much for every Tunnela declared at the start, when those are;
  // else for every one shown; else for every face held three times.
  lemma BonusMeans(p: PlayerState, r: ScoringRules)
    requires Physical(p.hand)
    ensures r.tunnelaScope == Off ==> BonusItems(p, r) == []
    ensures r.tunnelaScope != Off && r.initialTunnelaDeclaration ==> BonusFor(BonusItems(p, r), p.initialTunnelas, r)
    ensures r.tunnelaScope == Shown && !r.initialTunnelaDeclaration ==> BonusFor(BonusItems(p, r), p.shownMelds, r)
    ensures r.tunnelaScope == Hand && !r.initialTunnelaDeclaration ==>
              var items := BonusItems(p, r);
              && |items| <= 1 && (forall c :: c in ItemIds(items) <==> Tripled(p.hand, c)) && NoDup(ItemIds(items))
              && (items != [] ==> |items[0].ids| == 3 * items[0].count && items[0].points == items[0].count * r.tunnelaBonus)
  {
    hide Physical, NoDup, Copies, ItemIds;
    TunnelasCounted(p.initialTunnelas);
    TunnelasCounted(p.shownMelds);
    var faces := FaceOrder(SortedById(p.hand));
    TriplesAre(p.hand, faces);
    AllFacesListed(SortedById(p.hand));
    PermutationKeeps(SortedById(p.hand), p.hand);
    forall c | Tripled(p.hand, c) ensures c.face in faces {
      assert c in Elems(p.hand);
      assert c in Elems(SortedById(p.hand));
    }
    var triples := Triples(p.hand, faces);
    BonusIds(|triples|, r.tunnelaBonus, Joined(triples));
  }

  lemma BonusIds(count: nat, each: nat, ids: seq<CardId>)
    requires |ids| == 3 * count
    ensures ItemIds(Bonus(count, each, ids)) == ids
  {
    if count > 0 { assert Bonus(count, each, ids)[1..] == []; }
  }

  predicate BonusFor(items: seq<ScoreItem>, melds: seq<Meld>, r: ScoringRules) {
    var count := multiset(Kinds(melds))[Tunnela];
    if count == 0 then items == []
    else
      && |items| == 1 && items[0].name == TunnelaItem && items[0].count == count
         && items[0].points == count * r.tunnelaBonus
      && items[0].ids == MeldIds(TunnelaMelds(melds))
  }

  // ---- settlement

  predicate Scorable(s: GameState) {
    && TablesFormed(s.config.rules.scoring) && StandardIndicator(s.tiplu) && RosterOk(s.config, s.players)
       && NoDup(s.config.playerIds)
    && (forall i :: 0 <= i < |s.players| ==> Physical(s.players[i].hand))
    && s.winner.Some? && s.winner.value in s.config.playerIds
  }

  function WinnerSeat(s: GameState): (seat: nat)
    requires Scorable(s)
    ensures seat < |s.players| && s.players[seat].id == s.winner.value
  {
    IndexOf(s.config.playerIds, s.winner.value)
  }

  function PlayerItems(s: GameState, i: nat): seq<ScoreItem>
    requires Scorable(s) && i < |s.players|
  {
    Items(s.players[i], if s.tiplu.Some? then Some(Maal(s.tiplu.value)) else None, s.config.rules.scoring)
  }

  function AllPoints(s: GameState): (r: seq<int>)
    requires Scorable(s)
    ensures |r| == |s.players| && forall i :: 0 <= i < |r| ==> r[i] >= 0
  {
    seq(|s.players|, i requires 0 <= i < |s.players| => Points(PlayerItems(s, i)))
  }

  function LosersPay(s: GameState): (r: seq<int>)
    requires Scorable(s)
    ensures |r| == |s.players|
  {
    var rules := s.config.rules.scoring;
    var extra := if s.players[WinnerSeat(s)].route == DubleeRoute && !s.wonByFold then rules.dubleeWinBonus else 0;
    seq(|s.players|, i requires 0 <= i < |s.players| =>
      if s.players[i].id == s.winner.value then 0
      else -(if s.players[i].hasSeenMaal then rules.seenPayment else rules.unseenPayment) - extra)
  }

  function Payments(s: GameState): (r: seq<int>)
    requires Scorable(s)
    ensures |r| == |s.players|
  {
    LosersPay(s)[WinnerSeat(s) := -Sum(LosersPay(s))]
  }

  function Row(s: GameState, i: nat): PlayerScore
    requires Scorable(s) && i < |s.players|
  {
    var p, points, total := s.players[i], AllPoints(s), Sum(AllPoints(s));
    PlayerScore(p.id, p.hasSeenMaal, !s.config.rules.scoring.maalRequiresSeen
        || p.hasSeenMaal, PlayerItems(s, i), points[i],
                |points| * points[i] - total, Payments(s)[i], |points| * points[i] - total + Payments(s)[i])
  }

  // calculate_scores on a finished round; None before that.
  function Scores(s: GameState): (r: Option<RoundScore>)
    requires s.status == Finished ==> Scorable(s)
    ensures r.Some? ==> Scorable(s) && |r.value.players| == |s.players| && forall i ::
            0 <= i < |s.players| ==> r.value.players[i] == Row(s, i)
  {
    if s.status != Finished || s.winner.None? then None
    else
      SumNatural(AllPoints(s));
      Some(RoundScore(s.winner.value, Sum(AllPoints(s)),
          seq(|s.players|, i requires 0 <= i < |s.players| => Row(s, i))))
  }

  lemma {:induction false} SumConstant(s: seq<int>, scale: int, shift: int, t: seq<int>)
    requires |t| == |s| && forall i :: 0 <= i < |s| ==> t[i] == scale * s[i] + shift
    ensures Sum(t) == scale * Sum(s) + |s| * shift
  {
    if s != [] {
      SumConstant(s[..|s| - 1], scale, shift, t[..|t| - 1]);
      calc {
        Sum(t);
        scale * Sum(s[..|s| - 1]) + (|s| - 1) * shift + scale * s[|s| - 1] + shift;
        scale * (Sum(s[..|s| - 1]) + s[|s| - 1]) + |s| * shift;
      }
    }
  }

  lemma {:induction false} SumAdd(a: seq<int>, b: seq<int>, t: seq<int>)
    requires |a| == |b| == |t| && forall i :: 0 <= i < |t| ==> t[i] == a[i] + b[i]
    ensures Sum(t) == Sum(a) + Sum(b)
  {
    if t != [] { SumAdd(a[..|a| - 1], b[..|b| - 1], t[..|t| - 1]); }
  }

  function MaalNets(s: GameState): seq<int>
    requires Scorable(s)
  {
    seq(|s.players|, i requires 0 <= i < |s.players| => Row(s, i).maalNet)
  }

  function Nets(s: GameState): seq<int>
    requires Scorable(s)
  {
    seq(|s.players|, i requires 0 <= i < |s.players| => Row(s, i).net)
  }

  // What one player settles with each of the others.
  function Differences(s: GameState, i: nat): seq<int>
    requires Scorable(s) && i < |s.players|
  {
    seq(|s.players|, j requires 0 <= j < |s.players| => AllPoints(s)[i] - AllPoints(s)[j])
  }

  // Maal is settled pairwise: a player's Maal result is the sum of the
  // differences with everyone.
  lemma MaalIsPairwise(s: GameState, i: nat)
    requires Scorable(s) && i < |s.players|
    ensures Row(s, i).maalNet == Sum(Differences(s, i))
  {
    SumConstant(AllPoints(s), -1, AllPoints(s)[i], Differences(s, i));
  }

  // The winner receives exactly what the others pay.
  lemma PaymentsBalance(s: GameState)
    requires Scorable(s)
    ensures Sum(Payments(s)) == 0
    ensures forall i :: 0 <= i < |s.players| && s.players[i].id != s.winner.value ==> Payments(s)[i] <= 0
    ensures Payments(s)[WinnerSeat(s)] >= 0
  {
    hide Physical, TablesFormed, NoDup;
    var row, seat := LosersPay(s), WinnerSeat(s);
    SumUpdate(row, seat, -Sum(row));
    forall i | 0 <= i < |s.players| && s.players[i].id != s.winner.value ensures Payments(s)[i] <= 0 {
      assert Payments(s)[i] == row[i];
    }
    var owed := seq(|row|, i requires 0 <= i < |row| => -row[i]);
    SumNatural(owed);
    SumConstant(row, -1, 0, owed);
  }

  // Every loser pays the seen or the unseen rate, and the bonus besides when the
  // winner finished on the Dublee route.
  lemma LosersPayRates(s: GameState, i: nat)
    requires Scorable(s) && i < |s.players| && s.players[i].id != s.winner.value
    ensures var r, w := s.config.rules.scoring, s.players[WinnerSeat(s)];
            && (s.players[i].hasSeenMaal && (w.route != DubleeRoute || s.wonByFold)
               ==> Payments(s)[i] + r.seenPayment == 0)
            && (!s.players[i].hasSeenMaal && (w.route != DubleeRoute || s.wonByFold)
               ==> Payments(s)[i] + r.unseenPayment == 0)
            && (s.players[i].hasSeenMaal && w.route == DubleeRoute && !s.wonByFold
               ==> Payments(s)[i] + r.seenPayment + r.dubleeWinBonus == 0)
            && (!s.players[i].hasSeenMaal && w.route == DubleeRoute && !s.wonByFold
               ==> Payments(s)[i] + r.unseenPayment + r.dubleeWinBonus == 0)
    ensures Row(s, i).payment == Payments(s)[i] && Row(s, i).points == AllPoints(s)[i]
  {
    hide Physical, TablesFormed, NoDup;
    assert i != WinnerSeat(s);
  }

  // Final scores sum to zero over the players, as do Maal and the payments.
  lemma ScoresZeroSum(s: GameState)
    requires Scorable(s)
    ensures Sum(MaalNets(s)) == 0 && Sum(Payments(s)) == 0 && Sum(Nets(s)) == 0
  {
    hide Scorable, PlayerItems, Payments, AllPoints, Row;
    PaymentsBalance(s);
    var points := AllPoints(s);
    forall i | 0 <= i < |s.players|
      ensures MaalNets(s)[i] == |points| * points[i] + -Sum(points) && Nets(s)[i] == MaalNets(s)[i] + Payments(s)[i]
    {
      RowIs(s, i);
    }
    SumConstant(points, |points|, -Sum(points), MaalNets(s));
    Cancels(|points|, Sum(points));
    SumAdd(MaalNets(s), Payments(s), Nets(s));
  }

  lemma RowIs(s: GameState, i: nat)
    requires Scorable(s) && i < |s.players|
    ensures var points := AllPoints(s);
            Row(s, i).maalNet == |points| * points[i] + -Sum(points)
                && Row(s, i).net == Row(s, i).maalNet + Payments(s)[i]
  {
    hide Scorable, PlayerItems, Payments, AllPoints;
  }

  lemma Cancels(n: int, x: int)
    ensures n * x + n * -x == 0
  {
  }

  // In every round a run can finish the scores exist: the winner is a player and
  // every table has an entry for what is held.
  lemma FinishedScorable(s: GameState)
    requires Inv(s) && s.status == Finished && TablesFormed(s.config.rules.scoring)
    ensures Scorable(s) && Scores(s).Some?
  {
    hide SeatOk, Conserved, ForcedOk, ActiveOk, NoDup;
    FinishedShape(s);
    forall i | 0 <= i < |s.players| ensures Physical(s.players[i].hand) { ConservedApart(s, i); }
  }

  lemma FinishedShape(s: GameState)
    requires Inv(s) && s.status == Finished
    ensures StandardIndicator(s.tiplu) && RosterOk(s.config, s.players) && NoDup(s.config.playerIds)
    ensures Conserved(s.players, s.stock, s.discard, s.tiplu)
    ensures s.winner.Some? && s.winner.value in s.config.playerIds
  {
    hide SeatOk, Conserved, ForcedOk, ActiveOk;
  }
}
