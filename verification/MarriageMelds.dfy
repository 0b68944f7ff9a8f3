// Natural melds in faces, suits and the tuple of ranks.
module MarriageMelds {
  import opened Prelude
  import opened Cards
  import opened MarriageCards
  import opened MarriageModels
  import opened MarriageCompletion
  import opened MarriageState

  // The ranks at n places of an order, from a place on.
  function Slice(order: RankOrder, lo: nat, n: nat): seq<Rank>
    requires lo + n <= 13
  {
    PositionIsIndex(order, ACE);
    RanksInOrder(order)[lo..lo + n]
  }

  // A run is one suit and, in some place, a slice of the tuple of ranks.
  lemma RunIsSlice(f: map<PhysicalCard, Identity>, order: RankOrder)
    requires f.Keys != {}
    ensures IsRun(f, order) <==>
            && (forall a, b :: a in f && b in f ==> f[a].suit == f[b].suit)
            && exists lo: nat :: lo + |f.Keys| <= 13 && (set c | c in f :: f[c].rank) == Elems(Slice(order, lo, |f.Keys|))
  {
    hide RanksInOrder, Position, RankAt;
    var n := |f.Keys|;
    if IsRun(f, order) {
      var lo :| PositionSet(f, order) == Window(lo, n);
      WindowInside(f, order, lo);
      SliceOfWindow(f, order, lo);
    }
    if lo: nat :| lo + n <= 13 && (set c | c in f :: f[c].rank) == Elems(Slice(order, lo, n)) {
      WindowOfSlice(f, order, lo);
    }
  }

  lemma WindowInside(f: map<PhysicalCard, Identity>, order: RankOrder, lo: int)
    requires f.Keys != {} && PositionSet(f, order) == Window(lo, |f.Keys|)
    ensures 0 <= lo && lo + |f.Keys| <= 13
  {
    hide Position;
    var n := |f.Keys|;
    assert lo in Window(lo, n) && lo + n - 1 in Window(lo, n);
    forall x | x in PositionSet(f, order) ensures 0 <= x < 13 {}
  }

  lemma SliceOfWindow(f: map<PhysicalCard, Identity>, order: RankOrder, lo: nat)
    requires lo + |f.Keys| <= 13 && PositionSet(f, order) == Window(lo, |f.Keys|)
    ensures (set c | c in f :: f[c].rank) == Elems(Slice(order, lo, |f.Keys|))
  {
    hide Position, RanksInOrder;
    var n := |f.Keys|;
    var slice := Slice(order, lo, n);
    PositionIsIndex(order, ACE);
    forall c | c in f ensures f[c].rank in slice {
      var p := Position(order, f[c].rank);
      assert p in PositionSet(f, order) && p in Window(lo, n);
      PositionIsIndex(order, f[c].rank);
      assert slice[p - lo] == f[c].rank;
    }
    forall rank | rank in slice ensures exists c :: c in f && f[c].rank == rank {
      var k :| 0 <= k < n && slice[k] == rank;
      PlaceInOrder(order, lo + k);
      assert lo + k in Window(lo, n) && lo + k in PositionSet(f, order);
      var c :| c in f && Position(order, f[c].rank) == lo + k;
      PositionIsIndex(order, f[c].rank);
    }
  }

  lemma WindowOfSlice(f: map<PhysicalCard, Identity>, order: RankOrder, lo: nat)
    requires lo + |f.Keys| <= 13 && (set c | c in f :: f[c].rank) == Elems(Slice(order, lo, |f.Keys|))
    ensures PositionSet(f, order) == Window(lo, |f.Keys|)
  {
    hide Position, RanksInOrder;
    var n := |f.Keys|;
    var slice := Slice(order, lo, n);
    PositionIsIndex(order, ACE);
    forall c | c in f ensures Position(order, f[c].rank) in Window(lo, n) {
      assert f[c].rank in Elems(slice);
      var k :| 0 <= k < n && slice[k] == f[c].rank;
      PlaceInOrder(order, lo + k);
    }
    forall x | x in Window(lo, n) ensures x in PositionSet(f, order) {
      assert slice[x - lo] in Elems(slice);
      var c :| c in f && f[c].rank == slice[x - lo];
      PlaceInOrder(order, x);
    }
  }

  lemma PlaceInOrder(order: RankOrder, p: nat)
    requires p < 13
    ensures |RanksInOrder(order)| == 13 && Position(order, RanksInOrder(order)[p]) == p
  {
    PositionIsIndex(order, RankAt(order, p));
  }

  // A pure sequence: three or more natural cards of one suit whose ranks are a
  // slice of A 2 .. K, or of 2 .. K A when the ace may be high.
  ghost predicate NaturalSlice(ids: seq<CardId>, rules: Rules) {
    && |ids| >= 3 && AllNatural(ids) && OneSuit(ids)
    && exists order, lo: nat :: (order == AceLow || rules.aceSequence == LowOrHigh) && SliceAt(ids, order, lo)
  }

  predicate OneSuit(ids: seq<CardId>)
    requires AllNatural(ids)
  {
    forall i, j :: 0 <= i < |ids| && 0 <= j < |ids| ==> ids[i].face.suit == ids[j].face.suit
  }

  predicate SliceAt(ids: seq<CardId>, order: RankOrder, lo: nat)
    requires AllNatural(ids)
  {
    lo + |ids| <= 13 && Elems(RankValues(ids)) == Elems(Slice(order, lo, |ids|))
  }

  // Which melds a player may lay down: distinct held natural cards, uncommitted
  // unless that is allowed, and three copies of a face, two, or a slice.
  lemma ValidMeldMeans(p: PlayerState, meld: Meld, rules: Rules, allowCommitted: bool)
    ensures ValidMeld(p, meld, rules, allowCommitted) <==>
            && NoDup(meld.ids)
            && (forall c :: c in meld.ids ==> c in p.hand && Canonical(c) && c.Standard? && (allowCommitted || c !in p.committed))
            && match meld.kind
               case PureSequence => NaturalSlice(meld.ids, rules)
               case Tunnela => |meld.ids| == 3 && meld.ids[0].face == meld.ids[1].face == meld.ids[2].face
               case Dublee => |meld.ids| == 2 && meld.ids[0].face == meld.ids[1].face
               case _ => false
  {
    hide PureRun, Canonical, Orders, SliceAt, OneSuit, NoDup;
    var ids := meld.ids;
    NoDupSize(ids);
    if NoDup(ids) && AllNatural(ids) {
      if meld.kind == PureSequence && |ids| >= 3 { SequenceMeans(ids, rules); }
    }
    assert (forall c :: c in ids ==> c.Standard?) <==> AllNatural(ids);
    if AllNatural(ids) { OneFace(ids); }
  }

  lemma OneFace(ids: seq<CardId>)
    requires AllNatural(ids)
    ensures |ids| == 2 ==> (|Elems(Faces(ids))| == 1 <==> ids[0].face == ids[1].face)
    ensures |ids| == 3 ==> (|Elems(Faces(ids))| == 1 <==> ids[0].face == ids[1].face == ids[2].face)
  {
    OneValue(Faces(ids));
    if |ids| == 2 || |ids| == 3 {
      forall i | 0 <= i < |ids| ensures Faces(ids)[i] == ids[i].face {}
      assert Faces(ids)[0] == ids[0].face && Faces(ids)[1] == ids[1].face;
    }
  }

  lemma SequenceMeans(ids: seq<CardId>, rules: Rules)
    requires |ids| >= 3 && NoDup(ids) && AllNatural(ids)
    ensures |Elems(Suits(ids))| == 1 && (exists order :: order in Orders(rules.aceSequence) && PureRun(ids, order))
            <==> NaturalSlice(ids, rules)
  {
    hide PureRun, RanksInOrder, Orders, IsRun, NoDup;
    OneValue(Suits(ids));
    OrdersAre(rules.aceSequence);
    NoDupSize(ids);
    var f := OwnFaces(Elems(ids));
    assert f.Keys == Elems(ids);
    assert (set c | c in f :: f[c].rank) == Elems(RankValues(ids)) by { RanksOf(ids, f); }
    forall i, j | 0 <= i < |ids| && 0 <= j < |ids| ensures Suits(ids)[i] == Suits(ids)[j]
        <==> ids[i].face.suit == ids[j].face.suit {}
    if OneSuit(ids) {
      forall a, b | a in ids && b in ids ensures a.face.suit == b.face.suit {
        var i, j :| 0 <= i < |ids| && 0 <= j < |ids| && ids[i] == a && ids[j] == b;
      }
      forall order: RankOrder ensures PureRun(ids, order) <==> exists lo: nat :: SliceAt(ids, order, lo) {
        PureRunDecided(ids, order);
        assert ids[0] in f.Keys;
        RunIsSlice(f, order);
        forall a, b | a in f && b in f ensures f[a].suit == f[b].suit {}
        forall lo: nat ensures SliceAt(ids, order, lo) <==>
                               lo + |f.Keys| <= 13 && (set c | c in f ::
                                   f[c].rank) == Elems(Slice(order, lo, |f.Keys|)) {}
      }
    }
  }

  lemma RanksOf(ids: seq<CardId>, f: map<PhysicalCard, Identity>)
    requires AllNatural(ids) && f.Keys == Elems(ids) && forall c :: c in f ==> f[c] == c.face
    ensures (set c | c in f :: f[c].rank) == Elems(RankValues(ids))
  {
    forall rank | rank in Elems(RankValues(ids)) ensures exists c :: c in f && f[c].rank == rank {
      var i :| 0 <= i < |ids| && RankValues(ids)[i] == rank;
      assert ids[i] in f;
    }
    forall c | c in f ensures f[c].rank in Elems(RankValues(ids)) {
      var i :| 0 <= i < |ids| && ids[i] == c;
      assert RankValues(ids)[i] == f[c].rank;
    }
  }

  // Three sequences or Tunnelas, or seven Dublees, disjoint, and on the Normal
  // route fewer cards than are held.
  lemma DeclarationMeans(p: PlayerState, melds: seq<Meld>, route: Route, rules: Rules)
    requires route != Unqualified
    ensures ValidDeclaration(p, melds, route, rules, false) <==>
            && |melds| == (if route == Normal then 3 else 7)
            && (forall k :: 0 <= k < |melds| ==>
                  && ValidMeld(p, melds[k], rules, false)
                  && if route == Normal then melds[k].kind == PureSequence || melds[k].kind == Tunnela
                     else melds[k].kind == Dublee)
            && NoDup(MeldIds(melds))
            && (route == Normal ==> |MeldIds(melds)| < |p.hand|)
  {
    hide ValidMeld, MeldIds, NoDup;
    NoDupSize(MeldIds(melds));
  }
}
