// Immutable values of a Marriage round.
module MarriageModels {
  import opened Prelude
  import opened Cards
  import opened MarriageCards

  datatype MeldType = PureSequence | Tunnela | Dublee | Sequence | Set
  datatype Route = Unqualified | Normal | DubleeRoute

  datatype TunnelaScope = Off | Shown | Hand

  datatype ScoringRules = ScoringRules(
    tiplu: seq<nat>, jhiplu: seq<nat>, poplu: seq<nat>, alter: seq<nat>, man: seq<nat>, marriage: seq<nat>,
    initialTunnelaDeclaration: bool, tunnelaBonus: nat, tunnelaScope: TunnelaScope,
    maalRequiresSeen: bool, seenPayment: nat, unseenPayment: nat, dubleeWinBonus: nat)

  datatype Rules = Rules(
    aceSequence: AcePolicy,
    dubleePlayerCanDrawDiscard: bool,
    dubleePlayerCanTakeWinningDiscard: bool,
    scoring: ScoringRules)

  datatype Meld = Meld(kind: MeldType, ids: seq<CardId>)

  // The ids of several melds, one after the other.
  function MeldIds(melds: seq<Meld>): seq<CardId> {
    if melds == [] then [] else melds[0].ids + MeldIds(melds[1..])
  }

  lemma MeldIdsFirst(first: Meld, rest: seq<Meld>)
    ensures MeldIds([first] + rest) == first.ids + MeldIds(rest)
  {
    assert ([first] + rest)[1..] == rest;
  }

  lemma {:induction false} MeldIdsConcat(a: seq<Meld>, b: seq<Meld>)
    ensures MeldIds(a + b) == MeldIds(a) + MeldIds(b)
  {
    if a == [] {
      assert a + b == b;
    } else {
      hide MeldIds;
      assert a == [a[0]] + a[1..];
      assert a + b == [a[0]] + (a[1..] + b);
      MeldIdsConcat(a[1..], b);
      MeldIdsFirst(a[0], a[1..]);
      MeldIdsFirst(a[0], a[1..] + b);
    }
  }

  lemma {:induction false} MeldIdsContain(melds: seq<Meld>, k: nat)
    requires k < |melds|
    ensures forall i :: i in melds[k].ids ==> i in MeldIds(melds)
  {
    if k > 0 {
      MeldIdsContain(melds[1..], k - 1);
    }
  }

  datatype NormalFinish = NormalFinish(melds: seq<Meld>, discard: CardId)

  datatype PlayerState = PlayerState(
    id: string,
    hand: seq<PhysicalCard>,
    route: Route,
    shownMelds: seq<Meld>,
    committed: set<CardId>,
    hasSeenMaal: bool,
    finished: bool,
    folded: bool,
    tunnelaDeclared: bool,
    initialTunnelas: seq<Meld>)

  // What the PlayerState constructor checks.
  predicate PlayerFormed(p: PlayerState) {
    && NoDup(p.hand)
    && NoDup(MeldIds(p.shownMelds))
    && Elems(MeldIds(p.shownMelds)) == p.committed
    && p.committed <= Elems(p.hand)
  }

  function FreshPlayer(id: string, hand: seq<PhysicalCard>): PlayerState {
    PlayerState(id, hand, Unqualified, [], {}, false, false, false, false, [])
  }

  predicate InInitialTunnela(p: PlayerState, c: CardId) {
    c in MeldIds(p.initialTunnelas)
  }
}
