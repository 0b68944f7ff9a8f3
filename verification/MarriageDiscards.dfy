// Whether qualifying leaves a card to discard.
module MarriageDiscards {
  import opened Prelude
  import opened Cards
  import opened MarriageCards
  import opened MarriageModels
  import opened MarriageCompletion
  import opened MarriageState
  import opened MarriageAudit
  import opened MarriageSteps
  import opened MarriageInvariant

  predicate MayDiscardOne(p: PlayerState) {
    exists c :: c in p.hand && !Locked(p, c)
  }

  // After a Normal qualification a card is left to discard exactly when some card
  // of the hand is in none of the melds and in no initial Tunnela.
  lemma DiscardRemains(p: PlayerState, melds: seq<Meld>)
    ensures MayDiscardOne(Qualified(p, Normal, melds)) <==>
            exists c :: c in p.hand && c !in MeldIds(melds) && !InInitialTunnela(p, c)
  {
    var q := Qualified(p, Normal, melds);
    forall c ensures Locked(q, c) <==> c in MeldIds(melds) || InInitialTunnela(p, c) {
      assert c in q.committed <==> c in MeldIds(melds);
    }
  }

  // So the declaration check is enough for a player without initial Tunnelas.
  lemma DiscardWithoutTunnelas(p: PlayerState, melds: seq<Meld>, rules: Rules)
    requires PlayerFormed(p) && p.initialTunnelas == [] && ValidDeclaration(p, melds, Normal, rules, false)
    ensures MayDiscardOne(Qualified(p, Normal, melds))
  {
    hide ValidMeld, NoDup;
    DiscardRemains(p, melds);
    NoDupSize(p.hand);
    if forall c :: c in p.hand ==> c in MeldIds(melds) {
      assert Elems(p.hand) <= Elems(MeldIds(melds));
      SubsetFull(Elems(p.hand), Elems(MeldIds(melds)));
    }
    var c :| c in p.hand && c !in MeldIds(melds);
    assert !InInitialTunnela(p, c);
  }

  // ---- a declaration that leaves nothing

  function Club(rank: Rank, pack: nat): PhysicalCard {
    Standard(Identity(Clubs, rank), pack)
  }

  function ThreeOf(rank: Rank): Meld {
    Meld(Tunnela, [Club(rank, 0), Club(rank, 1), Club(rank, 2)])
  }

  // The first n of the clubs, pack after pack within a rank, from the twos up.
  function ClubRun(n: nat): (r: seq<PhysicalCard>)
    requires n <= 24
    ensures |r| == n && forall i :: 0 <= i < n ==> r[i] == Club(2 + i / 3, i % 3)
  {
    seq(n, i requires 0 <= i < n => Club(2 + i / 3, i % 3))
  }

  function Threes(n: nat): (r: seq<Meld>)
    requires n <= 7
    ensures |r| == n && forall k :: 0 <= k < n ==> r[k] == ThreeOf(2 + k)
  {
    seq(n, k requires 0 <= k < n => ThreeOf(2 + k))
  }

  // Seven Tunnelas, twos to eights, and a nine drawn.
  function FullOfTunnelas(): PlayerState {
    PlayerState("p", ClubRun(22), Unqualified, [], {}, false, false, false, true, Threes(7))
  }

  function NineDeclared(): seq<Meld> {
    [ThreeOf(2), ThreeOf(3), Meld(PureSequence, [Club(7, 0), Club(8, 0), Club(9, 0)])]
  }

  // All is in order for this declaration, thirteen cards are in none of its
  // melds, and yet every card is locked once it is made.
  lemma NothingLeft(rules: Rules)
    ensures var p, melds := FullOfTunnelas(), NineDeclared();
            && |p.hand| == 22 && PlayerFormed(p) && TunnelasOk(p, rules)
            && ValidDeclaration(p, melds, Normal, rules, false)
            && |Elems(MeldIds(melds))| == 9 && !MayDiscardOne(Qualified(p, Normal, melds))
  {
    hide ValidMeld, MeldIds, NoDup, ClubRun, Threes, Locked;
    var p, melds := FullOfTunnelas(), NineDeclared();
    ClubsDiffer(22);
    ClubsDiffer(21);
    ThreesAre(7);
    NoDupSize(ClubRun(21));
    NoMelds();
    forall k | 0 <= k < 7 ensures ValidMeld(p, Threes(7)[k], rules, true) { ThreeIsValid(p, k, rules, true); }
    ThreeIsValid(p, 0, rules, false);
    ThreeIsValid(p, 1, rules, false);
    RunIsValid(p, rules);
    DeclaredIds();
    DiscardRemains(p, melds);
    forall c | c in p.hand ensures c in MeldIds(melds) || InInitialTunnela(p, c) {
      var i :| 0 <= i < 22 && ClubRun(22)[i] == c;
      if i < 21 { assert ClubRun(21)[i] == c; }
    }
  }

  lemma NoMelds()
    ensures MeldIds([]) == [] && NoDup<CardId>([])
  {
  }

  lemma ClubsDiffer(n: nat)
    requires n <= 24
    ensures NoDup(ClubRun(n))
  {
    var r := ClubRun(n);
    forall i, j | 0 <= i < j < n ensures r[i] != r[j] {
      assert i == 3 * (i / 3) + i % 3 && j == 3 * (j / 3) + j % 3;
    }
  }

  lemma {:induction false} ThreesAre(n: nat)
    requires n <= 7
    ensures MeldIds(Threes(n)) == ClubRun(3 * n)
  {
    if n > 0 {
      hide MeldIds, ClubRun;
      ThreesAre(n - 1);
      assert Threes(n) == Threes(n - 1) + [ThreeOf(1 + n)];
      MeldIdsConcat(Threes(n - 1), [ThreeOf(1 + n)]);
      OneMeld(ThreeOf(1 + n));
      LastThree(n);
    } else {
      NoMelds();
    }
  }

  lemma LastThree(n: nat)
    requires 0 < n <= 7
    ensures ClubRun(3 * n) == ClubRun(3 * n - 3) + ThreeOf(1 + n).ids
  {
    hide ClubRun;
    var r, before := ClubRun(3 * n), ClubRun(3 * n - 3);
    forall i | 0 <= i < 3 * n - 3 ensures r[i] == before[i] {}
    assert r[3 * n - 3] == Club(1 + n, 0) && r[3 * n - 2] == Club(1 + n, 1) && r[3 * n - 1] == Club(1 + n, 2);
  }

  lemma OneMeld(meld: Meld)
    ensures MeldIds([meld]) == meld.ids
  {
    assert [meld][1..] == [];
  }

  lemma ThreeIsValid(p: PlayerState, k: nat, rules: Rules, allowCommitted: bool)
    requires k < 7 && p.hand == ClubRun(22) && p.committed == {}
    ensures ValidMeld(p, ThreeOf(2 + k), rules, allowCommitted)
  {
    var ids := ThreeOf(2 + k).ids;
    assert p.hand[3 * k] == ids[0] && p.hand[3 * k + 1] == ids[1] && p.hand[3 * k + 2] == ids[2];
    NoDupSize(ids);
    OneValue(Faces(ids));
  }

  lemma RunIsValid(p: PlayerState, rules: Rules)
    requires p.hand == ClubRun(22) && p.committed == {}
    ensures ValidMeld(p, NineDeclared()[2], rules, false)
  {
    hide PureRun, ClubRun;
    var ids := NineDeclared()[2].ids;
    ClubAt(p.hand);
    assert p.hand[15] == ids[0] && p.hand[18] == ids[1] && p.hand[21] == ids[2];
    NoDupSize(ids);
    OneValue(Suits(ids));
    assert AceLow in Orders(rules.aceSequence);
    SevenEightNine();
  }

  lemma ClubAt(hand: seq<PhysicalCard>)
    requires hand == ClubRun(22)
    ensures hand[15] == Club(7, 0) && hand[18] == Club(8, 0) && hand[21] == Club(9, 0)
  {
  }

  lemma SevenEightNine()
    ensures PureRun([Club(7, 0), Club(8, 0), Club(9, 0)], AceLow)
  {
    hide Sorted, Window;
    assert Positions(AceLow, [Club(7, 0), Club(8, 0), Club(9, 0)]) == [6, 7, 8];
    InWindow();
    SortedIsRange([6, 7, 8]);
  }

  lemma InWindow()
    ensures Elems([6, 7, 8]) == Window(6, 3)
  {
  }

  lemma DeclaredIds()
    ensures NoDup(MeldIds(NineDeclared())) && |Elems(MeldIds(NineDeclared()))| == 9
    ensures forall i :: i in NineDeclared()[2].ids ==> i in MeldIds(NineDeclared())
  {
    hide MeldIds, NoDup;
    var melds := NineDeclared();
    assert melds == [melds[0]] + ([melds[1]] + [melds[2]]);
    MeldIdsFirst(melds[0], [melds[1]] + [melds[2]]);
    MeldIdsFirst(melds[1], [melds[2]]);
    OneMeld(melds[2]);
    NineDiffer();
    NoDupSize(MeldIds(melds));
  }

  lemma NineDiffer()
    ensures NoDup(ThreeOf(2).ids + (ThreeOf(3).ids + [Club(7, 0), Club(8, 0), Club(9, 0)]))
  {
    hide NoDup;
    NoDupConcat(ThreeOf(3).ids, [Club(7, 0), Club(8, 0), Club(9, 0)]);
    NoDupConcat(ThreeOf(2).ids, ThreeOf(3).ids + [Club(7, 0), Club(8, 0), Club(9, 0)]);
    ThreeDiffer(Club(2, 0), Club(2, 1), Club(2, 2));
    ThreeDiffer(Club(3, 0), Club(3, 1), Club(3, 2));
    ThreeDiffer(Club(7, 0), Club(8, 0), Club(9, 0));
  }

  lemma ThreeDiffer(a: CardId, b: CardId, c: CardId)
    requires a != b && a != c && b != c
    ensures NoDup([a, b, c])
  {
  }
}
