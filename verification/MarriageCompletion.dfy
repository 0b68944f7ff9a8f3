// completion_meld: which groups of cards may form a final meld.
module MarriageCompletion {
  // The specification speaks of assignments of faces to the wild cards; the code
  // only compares extreme positions. Classification connects the two.

  import opened Prelude
  import opened Cards
  import opened MarriageCards
  import opened MarriageModels

  // ---- the code

  predicate AllNatural(cards: seq<PhysicalCard>) {
    forall i :: 0 <= i < |cards| ==> cards[i].Standard?
  }

  function Faces(cards: seq<PhysicalCard>): (r: seq<Identity>)
    requires AllNatural(cards)
    ensures |r| == |cards|
  {
    seq(|cards|, i requires 0 <= i < |cards| => cards[i].face)
  }

  function Suits(cards: seq<PhysicalCard>): (r: seq<Suit>)
    requires AllNatural(cards)
    ensures |r| == |cards|
  {
    seq(|cards|, i requires 0 <= i < |cards| => cards[i].face.suit)
  }

  function RankValues(cards: seq<PhysicalCard>): (r: seq<Rank>)
    requires AllNatural(cards)
    ensures |r| == |cards|
  {
    seq(|cards|, i requires 0 <= i < |cards| => cards[i].face.rank)
  }

  function Positions(order: RankOrder, cards: seq<PhysicalCard>): (r: seq<int>)
    requires AllNatural(cards)
    ensures |r| == |cards|
  {
    seq(|cards|, i requires 0 <= i < |cards| => Position(order, cards[i].face.rank))
  }

  // The cards that can only be used at face value.
  function Fixed(cards: seq<PhysicalCard>, tiplu: PhysicalCard): (r: seq<PhysicalCard>)
    requires tiplu.Standard?
    ensures AllNatural(r)
    ensures forall c :: c in r <==> c in cards && !Wild(c, tiplu)
  {
    if cards == [] then []
    else if Wild(cards[0], tiplu) then Fixed(cards[1..], tiplu)
    else [cards[0]] + Fixed(cards[1..], tiplu)
  }

  predicate PureRun(cards: seq<PhysicalCard>, order: RankOrder)
    requires cards != [] && AllNatural(cards)
  {
    var ranks := Sorted(Positions(order, cards));
    |ranks| > 0 && ranks == Range(ranks[0], |cards|)
  }

  predicate GappedRun(fixed: seq<PhysicalCard>, size: nat, order: RankOrder)
    requires AllNatural(fixed)
  {
    var ranks := Sorted(Positions(order, fixed));
    && |Elems(ranks)| == |ranks|
    && (ranks == [] || ranks[|ranks| - 1] - ranks[0] < size)
  }

  function CompletionMeld(cards: seq<PhysicalCard>, tiplu: PhysicalCard, rules: Rules): Option<MeldType>
    requires tiplu.Standard?
  {
    if |cards| < 3 || |Elems(cards)| != |cards| then None
    else
      var orders := Orders(rules.aceSequence);
      var natural := AllNatural(cards);
      if natural && |cards| == 3 && |Elems(Faces(cards))| == 1 then Some(Tunnela)
      else if natural && |Elems(Suits(cards))| == 1 && exists order :: order in orders && PureRun(cards, order) then
        Some(PureSequence)
      else
        var fixed := Fixed(cards, tiplu);
        if && |cards| <= 13
           && |Elems(Suits(fixed))| <= 1
           && exists order :: order in orders && GappedRun(fixed, |cards|, order) then
          Some(Sequence)
        else if && |cards| <= 4
                && |Elems(RankValues(fixed))| <= 1
                && |Elems(Suits(fixed))| == |fixed| then
          Some(Set)
        else None
  }

  // ---- the meaning of a group

  // A choice of face for every card of a group; only wild cards have a choice.
  ghost predicate Assigns(f: map<PhysicalCard, Identity>, group: set<PhysicalCard>, tiplu: PhysicalCard)
    requires tiplu.Standard?
  {
    && f.Keys == group
    && forall c :: c in group && !Wild(c, tiplu) ==> f[c] == c.face
  }

  function PositionSet(f: map<PhysicalCard, Identity>, order: RankOrder): set<int> {
    set c | c in f :: Position(order, f[c].rank)
  }

  // One suit, and the ranks are |f| consecutive places of the order.
  ghost predicate IsRun(f: map<PhysicalCard, Identity>, order: RankOrder) {
    && (forall a, b :: a in f && b in f ==> f[a].suit == f[b].suit)
    && exists lo :: PositionSet(f, order) == Window(lo, |f.Keys|)
  }

  ghost predicate IsSet(f: map<PhysicalCard, Identity>) {
    && |f.Keys| <= 4
    && (forall a, b :: a in f && b in f ==> f[a].rank == f[b].rank)
    && (forall a, b :: a in f && b in f && a != b ==> f[a].suit != f[b].suit)
  }

  ghost predicate NaturalTriple(group: set<PhysicalCard>) {
    && |group| == 3
    && (forall c :: c in group ==> c.Standard?)
    && forall a, b :: a in group && b in group ==> a.face == b.face
  }

  function OwnFaces(group: set<PhysicalCard>): map<PhysicalCard, Identity>
    requires forall c :: c in group ==> c.Standard?
  {
    map c | c in group :: c.face
  }

  ghost predicate NaturalRun(group: set<PhysicalCard>, rules: Rules) {
    && |group| >= 3
    && (forall c :: c in group ==> c.Standard?)
    && exists order :: order in Orders(rules.aceSequence) && IsRun(OwnFaces(group), order)
  }

  ghost predicate AssignedRun(group: set<PhysicalCard>, tiplu: PhysicalCard, rules: Rules)
    requires tiplu.Standard?
  {
    && |group| >= 3
    && exists f, order :: Assigns(f, group, tiplu) && order in Orders(rules.aceSequence) && IsRun(f, order)
  }

  ghost predicate AssignedSet(group: set<PhysicalCard>, tiplu: PhysicalCard)
    requires tiplu.Standard?
  {
    && |group| >= 3
    && exists f :: Assigns(f, group, tiplu) && IsSet(f)
  }

  // The kind the documentation gives a group of cards: the first that fits.
  ghost function Meaning(group: set<PhysicalCard>, tiplu: PhysicalCard, rules: Rules): Option<MeldType>
    requires tiplu.Standard?
  {
    if NaturalTriple(group) then Some(Tunnela)
    else if NaturalRun(group, rules) then Some(PureSequence)
    else if AssignedRun(group, tiplu, rules) then Some(Sequence)
    else if AssignedSet(group, tiplu) then Some(Set)
    else None
  }

  // ---- the code decides the meaning

  lemma OneValue<T>(s: seq<T>)
    ensures |Elems(s)| <= 1 <==> forall i, j :: 0 <= i < |s| && 0 <= j < |s| ==> s[i] == s[j]
    ensures s != [] ==> |Elems(s)| >= 1
  {
    if s != [] {
      assert s[0] in Elems(s);
      SubsetFull({s[0]}, Elems(s));
      if |Elems(s)| <= 1 {
        assert Elems(s) == {s[0]};
        forall i | 0 <= i < |s| ensures s[i] == s[0] { assert s[i] in Elems(s); }
      } else {
        assert Elems(s) != {s[0]};
      }
    }
  }

  lemma TripleDecided(cards: seq<PhysicalCard>)
    requires |cards| >= 3 && NoDup(cards)
    ensures AllNatural(cards) && |cards| == 3 && |Elems(Faces(cards))| == 1 <==> NaturalTriple(Elems(cards))
  {
    NoDupSize(cards);
    if AllNatural(cards) {
      OneValue(Faces(cards));
      forall i | 0 <= i < |cards| ensures cards[i] in Elems(cards) && Faces(cards)[i] == cards[i].face {}
    } else {
      var i :| 0 <= i < |cards| && !cards[i].Standard?;
      assert cards[i] in Elems(cards);
    }
  }

  lemma SuitsAgree(cards: seq<PhysicalCard>)
    requires AllNatural(cards)
    ensures |Elems(Suits(cards))| <= 1 <==>
            forall a, b :: a in cards && b in cards ==> a.face.suit == b.face.suit
  {
    OneValue(Suits(cards));
    forall i | 0 <= i < |cards| ensures cards[i] in cards && Suits(cards)[i] == cards[i].face.suit {}
  }

  lemma PositionsAre(cards: seq<PhysicalCard>, order: RankOrder)
    requires AllNatural(cards)
    ensures Elems(Positions(order, cards)) == set c | c in cards :: Position(order, c.face.rank)
  {
    var ps := Positions(order, cards);
    forall i | 0 <= i < |cards| ensures ps[i] == Position(order, cards[i].face.rank) {}
  }

  lemma PureRunDecided(cards: seq<PhysicalCard>, order: RankOrder)
    requires cards != [] && NoDup(cards) && AllNatural(cards)
    requires forall a, b :: a in cards && b in cards ==> a.face.suit == b.face.suit
    ensures PureRun(cards, order) <==> IsRun(OwnFaces(Elems(cards)), order)
  {
    var f := OwnFaces(Elems(cards));
    NoDupSize(cards);
    SortedIsRange(Positions(order, cards));
    PositionsAre(cards, order);
    assert f.Keys == Elems(cards);
    forall c | c in cards ensures c in f && f[c] == c.face {}
    assert PositionSet(f, order) == (set c | c in cards :: Position(order, c.face.rank));
  }

  lemma NaturalRunDecided(cards: seq<PhysicalCard>, rules: Rules)
    requires |cards| >= 3 && NoDup(cards)
    ensures && AllNatural(cards)
            && |Elems(Suits(cards))| == 1
            && (exists order :: order in Orders(rules.aceSequence) && PureRun(cards, order))
            <==> NaturalRun(Elems(cards), rules)
  {
    NoDupSize(cards);
    if AllNatural(cards) {
      SuitsAgree(cards);
      OneValue(Suits(cards));
      if |Elems(Suits(cards))| == 1 {
        forall order ensures PureRun(cards, order) <==> IsRun(OwnFaces(Elems(cards)), order) {
          PureRunDecided(cards, order);
        }
      } else if NaturalRun(Elems(cards), rules) {
        var f := OwnFaces(Elems(cards));
        assert forall c :: c in cards ==> c in f && f[c] == c.face;
        assert false;
      }
    } else {
      var i :| 0 <= i < |cards| && !cards[i].Standard?;
      assert cards[i] in Elems(cards);
    }
  }

  // ---- runs with wild cards: the span test is exact

  lemma GappedRunNeeded(cards: seq<PhysicalCard>, tiplu: PhysicalCard, f: map<PhysicalCard, Identity>, order: RankOrder)
    requires tiplu.Standard? && NoDup(cards)
    requires Assigns(f, Elems(cards), tiplu) && IsRun(f, order)
    ensures |cards| <= 13
    ensures |Elems(Suits(Fixed(cards, tiplu)))| <= 1
    ensures GappedRun(Fixed(cards, tiplu), |cards|, order)
  {
    NoDupSize(cards);
    var fixed := Fixed(cards, tiplu);
    var lo :| PositionSet(f, order) == Window(lo, |f.Keys|);
    SubsetFull(Window(lo, |cards|), Window(0, 13));
    SuitsAgree(fixed);
    FixedNoDup(cards, tiplu);
    RunIsInjective(f, order);
    FixedPlaces(fixed, f, order, lo);
    SpanSmall(Positions(order, fixed), lo, |cards|);
  }

  lemma FixedPlaces(fixed: seq<PhysicalCard>, f: map<PhysicalCard, Identity>, order: RankOrder, lo: int)
    requires AllNatural(fixed) && NoDup(fixed) && PositionSet(f, order) == Window(lo, |f.Keys|)
    requires forall c :: c in fixed ==> c in f && f[c] == c.face
    requires forall a, b :: a in f && b in f && a != b ==> Position(order, f[a].rank) != Position(order, f[b].rank)
    ensures var ps := Positions(order, fixed);
            NoDup(ps) && forall i :: 0 <= i < |ps| ==> lo <= ps[i] < lo + |f.Keys|
  {
    var ps := Positions(order, fixed);
    forall i, j | 0 <= i < j < |ps| ensures ps[i] != ps[j] {
      assert fixed[i] in f && fixed[j] in f && fixed[i] != fixed[j];
    }
    forall i | 0 <= i < |ps| ensures lo <= ps[i] < lo + |f.Keys| {
      assert fixed[i] in f;
      assert ps[i] in PositionSet(f, order);
    }
  }

  // Distinct values inside a window spread over less than its size.
  lemma SpanSmall(ps: seq<int>, lo: int, n: nat)
    requires NoDup(ps) && forall i :: 0 <= i < |ps| ==> lo <= ps[i] < lo + n
    ensures var ranks := Sorted(ps);
            |Elems(ranks)| == |ranks| && (ranks == [] || ranks[|ranks| - 1] - ranks[0] < n)
  {
    var ranks := Sorted(ps);
    PermutationKeeps(ranks, ps);
    NoDupSize(ranks);
    if ranks != [] {
      assert ranks[0] in Elems(ps) && ranks[|ranks| - 1] in Elems(ps);
    }
  }

  lemma {:induction false} FixedNoDup(cards: seq<PhysicalCard>, tiplu: PhysicalCard)
    requires tiplu.Standard? && NoDup(cards)
    ensures NoDup(Fixed(cards, tiplu))
  {
    if cards != [] {
      assert forall i :: 0 <= i < |cards[1..]| ==> cards[1..][i] == cards[i + 1];
      FixedNoDup(cards[1..], tiplu);
      assert cards[0] !in cards[1..];
    }
  }

  // A run uses each of its places once.
  lemma RunIsInjective(f: map<PhysicalCard, Identity>, order: RankOrder)
    requires exists lo :: PositionSet(f, order) == Window(lo, |f.Keys|)
    ensures forall a, b :: a in f && b in f && a != b ==> Position(order, f[a].rank) != Position(order, f[b].rank)
  {
    var lo :| PositionSet(f, order) == Window(lo, |f.Keys|);
    forall a, b | a in f && b in f && a != b ensures Position(order, f[a].rank) != Position(order, f[b].rank) {
      if Position(order, f[a].rank) == Position(order, f[b].rank) {
        var fewer := set c | c in f.Keys - {a} :: Position(order, f[c].rank);
        assert fewer == PositionSet(f, order) by {
          forall y | y in PositionSet(f, order) ensures y in fewer {
            var c :| c in f && y == Position(order, f[c].rank);
            if c == a { assert b in f.Keys - {a}; } else { assert c in f.Keys - {a}; }
          }
        }
        ImageAtMost(f.Keys - {a}, f, order);
        assert false;
      }
    }
  }

  lemma {:induction false} ImageAtMost(cs: set<PhysicalCard>, f: map<PhysicalCard, Identity>, order: RankOrder)
    requires cs <= f.Keys
    ensures |set c | c in cs :: Position(order, f[c].rank)| <= |cs|
    decreases |cs|
  {
    var image := set c | c in cs :: Position(order, f[c].rank);
    if cs == {} {
      assert image == {};
    } else {
      var c :| c in cs;
      ImageAtMost(cs - {c}, f, order);
      var rest := set d | d in cs - {c} :: Position(order, f[d].rank);
      assert image == rest + {Position(order, f[c].rank)};
    }
  }

  lemma GappedRunSuffices(cards: seq<PhysicalCard>, tiplu: PhysicalCard,
    order: RankOrder) returns (f: map<PhysicalCard, Identity>)
    requires tiplu.Standard? && NoDup(cards) && |cards| <= 13
    requires |Elems(Suits(Fixed(cards, tiplu)))| <= 1
    requires GappedRun(Fixed(cards, tiplu), |cards|, order)
    ensures Assigns(f, Elems(cards), tiplu) && IsRun(f, order)
  {
    var fixed := Fixed(cards, tiplu);
    var lo, suit := FindWindow(fixed, |cards|, order);
    var wild := WildCards(cards, tiplu);
    var ps := Positions(order, fixed);
    FreePlaces(Window(lo, |cards|), ps);
    var g: map<PhysicalCard, int> := Fill(wild, Window(lo, |cards|) - Elems(ps));
    NoDupSize(cards);
    PlacesDiffer(fixed, order);
    forall c | c in Elems(cards) && c !in wild
      ensures c.Standard? && c.face.suit == suit && lo <= Position(order, c.face.rank) < lo + |cards|
      ensures Position(order, c.face.rank) in Elems(ps)
    {
      assert c in fixed;
    }
    f := Stand(Elems(cards), wild, g, suit, order);
    StandRuns(Elems(cards), wild, g, suit, lo, order);
  }

  // Wild cards stand at their given places, the others for themselves.
  function Stand(group: set<PhysicalCard>, wild: set<PhysicalCard>, g: map<PhysicalCard, int>, suit: Suit,
    order: RankOrder)
    : map<PhysicalCard, Identity>
    requires wild <= g.Keys
    requires forall c :: c in wild ==> 0 <= g[c] < 13
    requires forall c :: c in group && c !in wild ==> c.Standard?
  {
    map c | c in group :: if c in wild then Identity(suit, RankAt(order, g[c])) else c.face
  }

  lemma StandRuns(group: set<PhysicalCard>, wild: set<PhysicalCard>, g: map<PhysicalCard, int>, suit: Suit,
    lo: nat, order: RankOrder)
    requires wild == g.Keys && wild <= group && lo + |group| <= 13
    requires forall c :: c in wild ==> lo <= g[c] < lo + |group|
    requires forall a, b :: a in g && b in g && a != b ==> g[a] != g[b]
    requires forall c :: c in group && c !in wild ==>
               c.Standard? && c.face.suit == suit && lo <= Position(order, c.face.rank) < lo + |group|
    requires forall a, b :: a in group && a !in wild && b in group && b !in wild && a != b ==>
               Position(order, a.face.rank) != Position(order, b.face.rank)
    requires forall a, b :: a in group && a !in wild && b in wild ==> Position(order, a.face.rank) != g[b]
    ensures IsRun(Stand(group, wild, g, suit, order), order)
  {
    var f := Stand(group, wild, g, suit, order);
    assert f.Keys == group;
    forall c | c in wild ensures f[c].suit == suit && Position(order, f[c].rank) == g[c] {}
    RunFills(f, lo, order);
  }

  // The wild cards of a group are as many as the fixed ones leave.
  lemma WildCards(cards: seq<PhysicalCard>, tiplu: PhysicalCard) returns (wild: set<PhysicalCard>)
    requires tiplu.Standard? && NoDup(cards)
    ensures forall c :: c in wild <==> c in cards && Wild(c, tiplu)
    ensures forall c :: c in cards && c !in wild ==> c in Fixed(cards, tiplu)
    ensures |wild| == |cards| - |Fixed(cards, tiplu)|
  {
    var fixed := Fixed(cards, tiplu);
    FixedNoDup(cards, tiplu);
    NoDupSize(cards);
    NoDupSize(fixed);
    wild := Elems(cards) - Elems(fixed);
    assert Elems(cards) == wild + Elems(fixed);
  }

  lemma FreePlaces<T>(all: set<T>, taken: seq<T>)
    requires NoDup(taken) && Elems(taken) <= all
    ensures |all - Elems(taken)| == |all| - |taken|
  {
    NoDupSize(taken);
    assert all == (all - Elems(taken)) + Elems(taken);
  }

  lemma PlacesDiffer(fixed: seq<PhysicalCard>, order: RankOrder)
    requires AllNatural(fixed) && NoDup(Positions(order, fixed))
    ensures forall a, b :: a in fixed && b in fixed && a != b ==>
            Position(order, a.face.rank) != Position(order, b.face.rank)
    ensures forall a :: a in fixed ==> Position(order, a.face.rank) in Elems(Positions(order, fixed))
  {
    var ps := Positions(order, fixed);
    forall a | a in fixed ensures exists i :: 0 <= i < |ps| && fixed[i] == a && ps[i] == Position(order, a.face.rank) {
      var i :| 0 <= i < |fixed| && fixed[i] == a;
      assert ps[i] == Position(order, a.face.rank);
    }
  }

  // Different places inside a window of |f| make a run.
  lemma RunFills(f: map<PhysicalCard, Identity>, lo: int, order: RankOrder)
    requires forall a, b :: a in f && b in f ==> f[a].suit == f[b].suit
    requires forall a, b :: a in f && b in f && a != b ==> Position(order, f[a].rank) != Position(order, f[b].rank)
    requires forall a :: a in f ==> lo <= Position(order, f[a].rank) < lo + |f.Keys|
    ensures IsRun(f, order)
  {
    var places := map c | c in f :: Position(order, f[c].rank);
    ImageSize(places);
    assert places.Keys == f.Keys;
    assert places.Values == PositionSet(f, order) by {
      forall y | y in PositionSet(f, order) ensures y in places.Values {
        var c :| c in f && y == Position(order, f[c].rank);
        assert places[c] == y;
      }
    }
    SubsetFull(places.Values, Window(lo, |f.Keys|));
  }

  // A window of n places inside the 13 ranks around the fixed cards, and their suit.
  lemma FindWindow(fixed: seq<PhysicalCard>, n: nat, order: RankOrder) returns (lo: nat, suit: Suit)
    requires AllNatural(fixed) && n <= 13
    requires |Elems(Suits(fixed))| <= 1 && GappedRun(fixed, n, order)
    ensures lo + n <= 13
    ensures NoDup(Positions(order, fixed))
    ensures forall p :: p in Positions(order, fixed) ==> lo <= p < lo + n
    ensures forall c :: c in fixed ==> c.face.suit == suit
  {
    var ps := Positions(order, fixed);
    var ranks := Sorted(ps);
    PermutationKeeps(ranks, ps);
    NoDupSize(ranks);
    SuitsAgree(fixed);
    if fixed == [] {
      lo, suit := 0, Clubs;
    } else {
      suit := fixed[0].face.suit;
      var min, max := ranks[0], ranks[|ranks| - 1];
      assert min in Elems(ps) && max in Elems(ps);
      lo := if max + 1 <= n then 0 else max + 1 - n;
      forall p | p in ps ensures min <= p <= max {
        assert p in Elems(ranks);
      }
    }
  }

  lemma RunDecided(cards: seq<PhysicalCard>, tiplu: PhysicalCard, rules: Rules)
    requires tiplu.Standard? && |cards| >= 3 && NoDup(cards)
    ensures && |cards| <= 13
            && |Elems(Suits(Fixed(cards, tiplu)))| <= 1
            && (exists order :: order in Orders(rules.aceSequence) && GappedRun(Fixed(cards, tiplu), |cards|, order))
            <==> AssignedRun(Elems(cards), tiplu, rules)
  {
    NoDupSize(cards);
    if AssignedRun(Elems(cards), tiplu, rules) {
      var f, order :| Assigns(f, Elems(cards), tiplu) && order in Orders(rules.aceSequence) && IsRun(f, order);
      GappedRunNeeded(cards, tiplu, f, order);
    } else if |cards| <= 13 && |Elems(Suits(Fixed(cards, tiplu)))| <= 1 {
      forall order | order in Orders(rules.aceSequence) ensures !GappedRun(Fixed(cards, tiplu), |cards|, order) {
        if GappedRun(Fixed(cards, tiplu), |cards|, order) {
          var f := GappedRunSuffices(cards, tiplu, order);
          assert false;
        }
      }
    }
  }

  // ---- sets with wild cards

  const ALL_SUITS: set<Suit> := {Clubs, Diamonds, Hearts, Spades}

  lemma SuitsBounded(suits: set<Suit>)
    ensures suits <= ALL_SUITS && |ALL_SUITS| == 4
  {
    forall s | s in suits ensures s in ALL_SUITS {
      match s
      case Clubs =>
      case Diamonds =>
      case Hearts =>
      case Spades =>
    }
  }

  lemma SetNeeded(cards: seq<PhysicalCard>, tiplu: PhysicalCard, f: map<PhysicalCard, Identity>)
    requires tiplu.Standard? && NoDup(cards)
    requires Assigns(f, Elems(cards), tiplu) && IsSet(f)
    ensures |cards| <= 4
    ensures |Elems(RankValues(Fixed(cards, tiplu)))| <= 1
    ensures |Elems(Suits(Fixed(cards, tiplu)))| == |Fixed(cards, tiplu)|
  {
    NoDupSize(cards);
    var fixed := Fixed(cards, tiplu);
    FixedNoDup(cards, tiplu);
    forall i | 0 <= i < |fixed| ensures fixed[i] in f && f[fixed[i]] == fixed[i].face {
      assert fixed[i] in cards;
    }
    OneValue(RankValues(fixed));
    NoDupSize(Suits(fixed));
  }

  lemma SetSuffices(cards: seq<PhysicalCard>, tiplu: PhysicalCard) returns (f: map<PhysicalCard, Identity>)
    requires tiplu.Standard? && NoDup(cards) && |cards| <= 4
    requires |Elems(RankValues(Fixed(cards, tiplu)))| <= 1
    requires |Elems(Suits(Fixed(cards, tiplu)))| == |Fixed(cards, tiplu)|
    ensures Assigns(f, Elems(cards), tiplu) && IsSet(f)
  {
    var fixed := Fixed(cards, tiplu);
    var wild := WildCards(cards, tiplu);
    NoDupSize(Suits(fixed));
    OneValue(RankValues(fixed));
    var rank: Rank := if fixed == [] then ACE else fixed[0].face.rank;
    SuitsBounded(Elems(Suits(fixed)));
    FreePlaces(ALL_SUITS, Suits(fixed));
    var g: map<PhysicalCard, Suit> := Fill(wild, ALL_SUITS - Elems(Suits(fixed)));
    f := map c | c in Elems(cards) :: if c in wild then Identity(g[c], rank) else c.face;
    NoDupSize(cards);
    assert f.Keys == Elems(cards);
    FixedSetFaces(fixed, rank);
  }

  lemma FixedSetFaces(fixed: seq<PhysicalCard>, rank: Rank)
    requires AllNatural(fixed) && NoDup(Suits(fixed))
    requires |Elems(RankValues(fixed))| <= 1 && (fixed != [] ==> fixed[0].face.rank == rank)
    ensures forall c :: c in fixed ==> c.face.rank == rank && c.face.suit in Elems(Suits(fixed))
    ensures forall a, b :: a in fixed && b in fixed && a != b ==> a.face.suit != b.face.suit
  {
    OneValue(RankValues(fixed));
    var suits, ranks := Suits(fixed), RankValues(fixed);
    forall c | c in fixed
      ensures exists i :: 0 <= i < |fixed| && fixed[i] == c && suits[i] == c.face.suit && c.face.rank == rank
    {
      var i :| 0 <= i < |fixed| && fixed[i] == c;
      assert ranks[i] == ranks[0];
      assert suits[i] == c.face.suit;
    }
  }

  lemma SetDecided(cards: seq<PhysicalCard>, tiplu: PhysicalCard)
    requires tiplu.Standard? && |cards| >= 3 && NoDup(cards)
    ensures && |cards| <= 4
            && |Elems(RankValues(Fixed(cards, tiplu)))| <= 1
            && |Elems(Suits(Fixed(cards, tiplu)))| == |Fixed(cards, tiplu)|
            <==> AssignedSet(Elems(cards), tiplu)
  {
    NoDupSize(cards);
    if AssignedSet(Elems(cards), tiplu) {
      var f :| Assigns(f, Elems(cards), tiplu) && IsSet(f);
      SetNeeded(cards, tiplu, f);
    } else if && |cards| <= 4
              && |Elems(RankValues(Fixed(cards, tiplu)))| <= 1
              && |Elems(Suits(Fixed(cards, tiplu)))| == |Fixed(cards, tiplu)| {
      var f := SetSuffices(cards, tiplu);
      assert false;
    }
  }

  // For every list of distinct cards and both Ace policies, the code returns
  // the meaning of the group, whatever order the cards are listed in.
  lemma Classification(cards: seq<PhysicalCard>, tiplu: PhysicalCard, rules: Rules)
    requires tiplu.Standard?
    ensures CompletionMeld(cards, tiplu, rules) ==
            if NoDup(cards) then Meaning(Elems(cards), tiplu, rules) else None
  {
    NoDupSize(cards);
    if |cards| >= 3 && NoDup(cards) {
      TripleDecided(cards);
      NaturalRunDecided(cards, rules);
      RunDecided(cards, tiplu, rules);
      SetDecided(cards, tiplu);
    }
  }

  lemma MeldDistinct(cards: seq<PhysicalCard>, tiplu: PhysicalCard, rules: Rules)
    requires tiplu.Standard?
    ensures CompletionMeld(cards, tiplu, rules).Some? ==> |cards| >= 3 && NoDup(cards)
  {
    NoDupSize(cards);
  }
}
