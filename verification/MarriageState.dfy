// The round snapshot, its events, the physical deck and natural melds. The deck
// is 159 cards, three packs and three Man cards; the conservation check is shown
// to accept exactly the permutations of it. Melds and declarations are checked
// against a player's own cards, and the method with a set of used ids decides
// the same as the definition.
module MarriageState {
  import opened Prelude
  import opened Cards
  import opened MarriageCards
  import opened MarriageModels
  import opened MarriageCompletion

  const HAND_SIZE := 21

  datatype Status = Waiting | InProgress | Finished
  datatype TurnPhase = MustDraw | MustDiscard
  datatype DrawSource = Stock | Discard

  datatype Event =
    | GameStarted(sequence: nat, revision: nat, playerIds: seq<string>, cardsPerPlayer: nat)
    | TurnChanged(sequence: nat, revision: nat, player: string, phase: TurnPhase)
    | DiscardPileRecycled(sequence: nat, revision: nat, count: nat)
    | CardDrawn(sequence: nat, revision: nat, player: string, source: DrawSource, card: PhysicalCard)
    | CardDiscarded(sequence: nat, revision: nat, player: string, card: PhysicalCard)
    | MeldsShown(sequence: nat, revision: nat, player: string, route: Route, kinds: seq<MeldType>,
        groups: seq<seq<CardId>>)
    | TipluRevealed(sequence: nat, revision: nat, card: PhysicalCard)
    | PlayerSawMaal(sequence: nat, revision: nat, player: string)
    | PlayerFinished(sequence: nat, revision: nat, player: string, pair: seq<CardId>,
                     kinds: seq<MeldType>, groups: seq<seq<CardId>>, discard: Option<CardId>)
    | PlayerFolded(sequence: nat, revision: nat, player: string)
    | TunnelasDeclared(sequence: nat, revision: nat, player: string, groups: seq<seq<CardId>>)

  datatype Config = Config(playerIds: seq<string>, rules: Rules, firstPlayerId: string)

  // What the MarriageConfig constructor checks.
  predicate ConfigFormed(c: Config) {
    2 <= |c.playerIds| <= 5 && NoDup(c.playerIds) && c.firstPlayerId in c.playerIds
  }

  datatype GameState = GameState(
    config: Config,
    players: seq<PlayerState>,
    stock: seq<PhysicalCard>,
    discard: seq<PhysicalCard>,
    currentSeat: Option<nat>,
    phase: Option<TurnPhase>,
    status: Status,
    tiplu: Option<PhysicalCard>,
    mustFinish: bool,
    winner: Option<string>,
    winningPair: seq<CardId>,
    revision: nat,
    history: seq<Event>,
    normalFinish: Option<NormalFinish>,
    wonByFold: bool)

  datatype Error = InvalidAction | InvalidTurn | InvalidMeld | NoDrawableCard | TipluUnavailable | CardConservation

  function Kinds(melds: seq<Meld>): (r: seq<MeldType>)
    ensures |r| == |melds|
  {
    seq(|melds|, i requires 0 <= i < |melds| => melds[i].kind)
  }

  function IdGroups(melds: seq<Meld>): (r: seq<seq<CardId>>)
    ensures |r| == |melds|
  {
    seq(|melds|, i requires 0 <= i < |melds| => melds[i].ids)
  }

  // ---- the deck

  function DeckCard(i: int): PhysicalCard
    requires 0 <= i < 159
  {
    if i >= 156 then Man(i - 156)
    else Standard(Identity(SuitAt(i % 52 / 13), 2 + i % 13), i / 52)
  }

  function DeckIndex(c: PhysicalCard): (i: nat)
    requires Canonical(c)
    ensures i < 159 && DeckCard(i) == c
  {
    match c
    case Man(index) => 156 + index
    case Standard(face, pack) => 52 * pack + 13 * SuitNumber(face.suit) + (face.rank - 2)
  }

  // create_deck: three packs in suit and rank order, then the Man cards.
  function CreateDeck(): (deck: seq<PhysicalCard>)
    ensures |deck| == 159
  {
    seq(159, i requires 0 <= i < 159 => DeckCard(i))
  }

  lemma DeckIsCanonical()
    ensures NoDup(CreateDeck()) && |Elems(CreateDeck())| == 159
    ensures forall c :: c in CreateDeck() <==> Canonical(c)
  {
    var deck := CreateDeck();
    forall i, j | 0 <= i < j < 159 ensures deck[i] != deck[j] {
      DeckCardIndex(i);
      DeckCardIndex(j);
    }
    NoDupSize(deck);
    forall c | c in deck ensures Canonical(c) {
      var i :| 0 <= i < |deck| && deck[i] == c;
      DeckCardIndex(i);
    }
    forall c | Canonical(c) ensures c in deck {
      assert deck[DeckIndex(c)] == c;
    }
  }

  lemma DeckCardIndex(i: int)
    requires 0 <= i < 159
    ensures Canonical(DeckCard(i)) && DeckIndex(DeckCard(i)) == i
  {
    if i < 156 {
      assert i == 52 * (i / 52) + i % 52;
      assert i % 52 == 13 * (i % 52 / 13) + i % 52 % 13;
      assert i % 52 % 13 == i % 13;
    }
  }

  // ---- where the cards are

  function Hands(players: seq<PlayerState>): seq<PhysicalCard> {
    if players == [] then [] else players[0].hand + Hands(players[1..])
  }

  function Indicator(tiplu: Option<PhysicalCard>): seq<PhysicalCard> {
    if tiplu.Some? then [tiplu.value] else []
  }

  function AllCards(players: seq<PlayerState>, stock: seq<PhysicalCard>, discard: seq<PhysicalCard>,
    tiplu: Option<PhysicalCard>)
    : seq<PhysicalCard>
  {
    Hands(players) + stock + discard + Indicator(tiplu)
  }

  // validate_deck on all locations.
  predicate Conserved(players: seq<PlayerState>, stock: seq<PhysicalCard>, discard: seq<PhysicalCard>,
    tiplu: Option<PhysicalCard>) {
    var cards := AllCards(players, stock, discard, tiplu);
    |cards| == 159 && |Elems(cards)| == 159 && Elems(cards) == Elems(CreateDeck())
  }

  ghost function Holdings(players: seq<PlayerState>, stock: seq<PhysicalCard>, discard: seq<PhysicalCard>,
    tiplu: Option<PhysicalCard>)
    : multiset<PhysicalCard>
  {
    multiset(Hands(players)) + multiset(stock) + multiset(discard) + multiset(Indicator(tiplu))
  }

  lemma ConservedIsPermutation(players: seq<PlayerState>, stock: seq<PhysicalCard>,
    discard: seq<PhysicalCard>, tiplu: Option<PhysicalCard>)
    ensures Conserved(players, stock, discard, tiplu) <==>
            Holdings(players, stock, discard, tiplu) == multiset(CreateDeck())
  {
    var cards, deck := AllCards(players, stock, discard, tiplu), CreateDeck();
    DeckIsCanonical();
    assert multiset(cards) == Holdings(players, stock, discard, tiplu);
    if Conserved(players, stock, discard, tiplu) {
      SameValuesPermute(cards, deck);
    }
    if multiset(cards) == multiset(deck) {
      PermutationKeeps(cards, deck);
      NoDupSize(cards);
    }
  }

  lemma {:induction false} HandsConcat(a: seq<PlayerState>, b: seq<PlayerState>)
    ensures Hands(a + b) == Hands(a) + Hands(b)
  {
    if a == [] {
      assert a + b == b;
    } else {
      HandsConcat(a[1..], b);
      var c := a + b;
      assert c[0] == a[0] && c[1..] == a[1..] + b;
      assert Hands(c) == a[0].hand + (Hands(a[1..]) + Hands(b));
    }
  }

  // Replacing one seat moves only that seat's cards.
  lemma HandsUpdate(players: seq<PlayerState>, seat: nat, p: PlayerState)
    requires seat < |players|
    ensures multiset(Hands(players[seat := p])) + multiset(players[seat].hand)
            == multiset(Hands(players)) + multiset(p.hand)
  {
    var a, b := players[..seat], players[seat + 1..];
    assert players == a + [players[seat]] + b;
    assert players[seat := p] == a + [p] + b;
    HandsConcat(a + [players[seat]], b);
    HandsConcat(a, [players[seat]]);
    HandsConcat(a + [p], b);
    HandsConcat(a, [p]);
    assert [p][1..] == [] && [players[seat]][1..] == [];
  }

  lemma HandsContain(players: seq<PlayerState>, seat: nat)
    requires seat < |players|
    ensures multiset(players[seat].hand) <= multiset(Hands(players))
  {
    var a, b := players[..seat], players[seat + 1..];
    assert players == a + [players[seat]] + b;
    HandsConcat(a + [players[seat]], b);
    HandsConcat(a, [players[seat]]);
    assert [players[seat]][1..] == [];
  }

  // ---- natural melds

  // validate_meld
  predicate ValidMeld(p: PlayerState, meld: Meld, rules: Rules, allowCommitted: bool) {
    && |Elems(meld.ids)| == |meld.ids|
    && (forall i :: i in meld.ids ==> i in p.hand && Canonical(i))
    && (allowCommitted || forall i :: i in meld.ids ==> i !in p.committed)
    && AllNatural(meld.ids)
    && match meld.kind
       case PureSequence =>
         && |meld.ids| >= 3
         && |Elems(Suits(meld.ids))| == 1
         && exists order :: order in Orders(rules.aceSequence) && PureRun(meld.ids, order)
       case Tunnela => |meld.ids| == 3 && |Elems(Faces(meld.ids))| == 1
       case Dublee => |meld.ids| == 2 && |Elems(Faces(meld.ids))| == 1
       case _ => false
  }

  function RequiredMelds(route: Route): nat {
    if route == DubleeRoute then 7 else 3
  }

  predicate Permitted(kind: MeldType, route: Route) {
    if route == DubleeRoute then kind == Dublee else kind == PureSequence || kind == Tunnela
  }

  // validate_declaration
  predicate ValidDeclaration(p: PlayerState, melds: seq<Meld>, route: Route, rules: Rules, allowCommitted: bool) {
    && |melds| == RequiredMelds(route)
    && (forall k :: 0 <= k < |melds| ==>
          ValidMeld(p, melds[k], rules, allowCommitted) && Permitted(melds[k].kind, route))
    && NoDup(MeldIds(melds))
    && (allowCommitted || route != Normal || |Elems(MeldIds(melds))| < |p.hand|)
  }

  // validate_declaration step by step, with the set of used ids.
  method CheckDeclaration(p: PlayerState, melds: seq<Meld>, route: Route, rules: Rules,
    allowCommitted: bool) returns (ok: bool)
    ensures ok <==> ValidDeclaration(p, melds, route, rules, allowCommitted)
  {
    hide ValidMeld, MeldIds, Permitted, NoDup;
    if |melds| != RequiredMelds(route) {
      return false;
    }
    var used: set<CardId> := {};
    NothingUsed(melds);
    for k := 0 to |melds|
      invariant used == Elems(MeldIds(melds[..k])) && NoDup(MeldIds(melds[..k]))
      invariant forall j :: 0 <= j < k ==>
                  ValidMeld(p, melds[j], rules, allowCommitted) && Permitted(melds[j].kind, route)
    {
      MeldIdsNext(melds, k);
      if !ValidMeld(p, melds[k], rules, allowCommitted) {
        return false;
      }
      ValidMeldDistinct(p, melds[k], rules, allowCommitted);
      if !Permitted(melds[k].kind, route) || used * Elems(melds[k].ids) != {} {
        PrefixNoDup(melds, k + 1);
        return false;
      }
      used := used + Elems(melds[k].ids);
    }
    assert melds[..|melds|] == melds;
    ok := allowCommitted || route != Normal || |used| < |p.hand|;
  }

  lemma NothingUsed(melds: seq<Meld>)
    ensures MeldIds(melds[..0]) == [] && NoDup<CardId>([])
  {
  }

  lemma ValidMeldDistinct(p: PlayerState, meld: Meld, rules: Rules, allowCommitted: bool)
    requires ValidMeld(p, meld, rules, allowCommitted)
    ensures NoDup(meld.ids)
  {
    NoDupSize(meld.ids);
  }

  lemma MeldIdsNext(melds: seq<Meld>, k: nat)
    requires k < |melds|
    ensures MeldIds(melds[..k + 1]) == MeldIds(melds[..k]) + melds[k].ids
    ensures Elems(MeldIds(melds[..k + 1])) == Elems(MeldIds(melds[..k])) + Elems(melds[k].ids)
    ensures NoDup(MeldIds(melds[..k + 1])) <==>
            NoDup(MeldIds(melds[..k])) && NoDup(melds[k].ids) && Elems(MeldIds(melds[..k])) * Elems(melds[k].ids) == {}
  {
    assert melds[..k + 1] == melds[..k] + [melds[k]];
    MeldIdsConcat(melds[..k], [melds[k]]);
    assert [melds[k]][1..] == [];
    assert MeldIds([melds[k]]) == melds[k].ids;
    ElemsConcat(MeldIds(melds[..k]), melds[k].ids);
    NoDupConcat(MeldIds(melds[..k]), melds[k].ids);
    DisjointMeaning(Elems(MeldIds(melds[..k])), Elems(melds[k].ids));
  }

  lemma PrefixNoDup(melds: seq<Meld>, k: nat)
    requires k <= |melds|
    ensures NoDup(MeldIds(melds)) ==> NoDup(MeldIds(melds[..k]))
  {
    assert melds == melds[..k] + melds[k..];
    MeldIdsConcat(melds[..k], melds[k..]);
    NoDupConcat(MeldIds(melds[..k]), MeldIds(melds[k..]));
  }

  // A meld stays valid while its cards stay in the hand.
  lemma ValidMeldKept(p: PlayerState, q: PlayerState, meld: Meld, rules: Rules)
    requires ValidMeld(p, meld, rules, true)
    requires forall i :: i in meld.ids ==> i in q.hand
    ensures ValidMeld(q, meld, rules, true)
  {
  }
}
