// normal_finish step by step, proved against the plain cover.
module MarriageFinder {
  // A table of candidate lists filled in place, and a cover with a memo table.
  // The result is also proved against the check on client selections.

  import opened Prelude
  import opened MarriageCards
  import opened MarriageModels
  import opened MarriageCompletion
  import opened MarriageSolver

  lemma ContainingAppend(groups: seq<Candidate>, c: Candidate, i: nat)
    ensures Containing(groups + [c], i) == Containing(groups, i) + if i in c.mask then [c] else []
  {
    assert (groups + [c])[..|groups|] == groups;
  }

  // for i in indices: candidates[i].append(candidate)
  method Append(table: array<seq<Candidate>>, indices: seq<nat>, c: Candidate)
    requires Increasing(indices, 0, table.Length) && c.mask == Elems(indices)
    modifies table
    ensures forall i :: 0 <= i < table.Length ==> table[i] == old(table[i]) + if i in c.mask then [c] else []
  {
    for j := 0 to |indices|
      invariant forall i :: 0 <= i < table.Length ==>
                  table[i] == old(table[i]) + if i in indices[..j] then [c] else []
    {
      assert indices[j] !in indices[..j];
      table[indices[j]] := table[indices[j]] + [c];
      assert indices[..j + 1] == indices[..j] + [indices[j]];
    }
    assert indices[..|indices|] == indices;
  }

  // One pass of the outer loop: every combination of one size.
  method AppendSize(table: array<seq<Candidate>>, cards: seq<PhysicalCard>, size: nat, tiplu: PhysicalCard,
    rules: Rules)
    requires tiplu.Standard? && table.Length == |cards| && size >= 3
    requires forall i :: 0 <= i < table.Length ==> table[i] == Containing(Groups(cards, size, tiplu, rules), i)
    modifies table
    ensures forall i :: 0 <= i < table.Length ==> table[i] == Containing(Groups(cards, size + 1, tiplu, rules), i)
  {
    hide CompletionMeld, Groups, Accepted, Containing, Kept, Increasing, Combinations;
    CombinationsAre(0, |cards|, size);
    var combos := Combinations(0, |cards|, size);
    ghost var done := Groups(cards, size, tiplu, rules);
    GroupsByCombination(cards, size, combos, tiplu, rules);
    for k := 0 to |combos|
      invariant done == Groups(cards, size, tiplu, rules) + Accepted(cards, combos[..k], tiplu, rules)
      invariant forall i :: 0 <= i < table.Length ==> table[i] == Containing(done, i)
    {
      AcceptedNext(cards, combos, k, tiplu, rules);
      AppendOne(table, cards, combos[k], done, tiplu, rules);
      done := done + Kept(cards, combos[k], tiplu, rules);
    }
    assert combos[..|combos|] == combos;
  }

  lemma GroupsByCombination(cards: seq<PhysicalCard>, size: nat, combos: seq<seq<nat>>, tiplu: PhysicalCard,
    rules: Rules)
    requires tiplu.Standard? && size >= 3 && combos == Combinations(0, |cards|, size) && AllIncreasing(combos, |cards|)
    ensures Groups(cards, size, tiplu, rules) + Accepted(cards, combos[..0], tiplu, rules)
            == Groups(cards, size, tiplu, rules)
    ensures Groups(cards, size, tiplu, rules) + Accepted(cards, combos, tiplu, rules)
            == Groups(cards, size + 1, tiplu, rules)
  {
    hide CompletionMeld;
  }

  method AppendOne(table: array<seq<Candidate>>, cards: seq<PhysicalCard>, indices: seq<nat>,
    ghost before: seq<Candidate>,
                   tiplu: PhysicalCard, rules: Rules)
    requires tiplu.Standard? && table.Length == |cards| && Increasing(indices, 0, |cards|)
    requires forall i :: 0 <= i < table.Length ==> table[i] == Containing(before, i)
    modifies table
    ensures forall i :: 0 <= i < table.Length ==>
              table[i] == Containing(before + Kept(cards, indices, tiplu, rules), i)
  {
    hide CompletionMeld;
    var group := Listed(cards, indices);
    var kind := CompletionMeld(group, tiplu, rules);
    if kind.Some? {
      var c := Candidate(Elems(indices), Meld(kind.value, group));
      Append(table, indices, c);
      forall i: nat ensures Containing(before + [c], i) == Containing(before, i) + if i in c.mask then [c] else [] {
        ContainingAppend(before, c, i);
      }
    } else {
      assert before + [] == before;
    }
  }

  method FillCandidates(cards: seq<PhysicalCard>, tiplu: PhysicalCard,
    rules: Rules) returns (cands: seq<seq<Candidate>>)
    requires tiplu.Standard?
    ensures cands == Candidates(cards, tiplu, rules)
  {
    hide CompletionMeld;
    var table := new seq<Candidate>[|cards|](_ => []);
    var size := 3;
    while size < |cards|
      invariant 3 <= size && (size <= |cards| || size == 3)
      invariant forall i :: 0 <= i < table.Length ==> table[i] == Containing(Groups(cards, size, tiplu, rules), i)
    {
      AppendSize(table, cards, size, tiplu, rules);
      size := size + 1;
    }
    cands := table[..];
  }

  lemma AcceptedNext(cards: seq<PhysicalCard>, combos: seq<seq<nat>>, k: nat, tiplu: PhysicalCard, rules: Rules)
    requires tiplu.Standard? && AllIncreasing(combos, |cards|) && k < |combos|
    ensures Accepted(cards, combos[..k + 1], tiplu, rules) ==
            Accepted(cards, combos[..k], tiplu, rules) + Kept(cards, combos[k], tiplu, rules)
  {
    hide CompletionMeld;
    assert combos[..k + 1][..k] == combos[..k];
  }

  // cover, with the answers found so far.
  class CoverTable {
    const cands: seq<seq<Candidate>>
    var memo: map<set<nat>, Option<seq<Meld>>>

    ghost predicate Valid()
      reads this
    {
      && Indexed(cands)
      && forall mask :: mask in memo ==> Within(mask, |cands|) && memo[mask] == MarriageSolver.Cover(cands, mask)
    }

    constructor (cands: seq<seq<Candidate>>)
      requires Indexed(cands)
      ensures Valid() && this.cands == cands
    {
      this.cands := cands;
      memo := map[];
    }

    // The first candidate for a card whose remainder can be covered.
    method FirstCandidate(mask: set<nat>, first: nat) returns (r: Option<seq<Meld>>)
      requires Valid() && Within(mask, |cands|) && first in mask
      modifies this
      ensures Valid() && r == TryFrom(cands, mask, first, 0)
      decreases |mask|, 0
    {
      r := None;
      var k := 0;
      while k < |cands[first]| && r.None?
        invariant k <= |cands[first]| && Valid()
        invariant r.None? ==> TryFrom(cands, mask, first, 0) == TryFrom(cands, mask, first, k)
        invariant r.Some? ==> TryFrom(cands, mask, first, 0) == r
        decreases |cands[first]| - k, r.None?
      {
        var c := cands[first][k];
        if c.mask <= mask {
          Smaller(mask, c.mask, first);
          var rest := Cover(mask - c.mask);
          if rest.Some? {
            r := Some([c.meld] + rest.value);
          }
        }
        k := k + 1;
      }
    }

    method Cover(mask: set<nat>) returns (r: Option<seq<Meld>>)
      requires Valid() && Within(mask, |cands|)
      modifies this
      ensures Valid() && r == MarriageSolver.Cover(cands, mask)
      decreases |mask|, 1
    {
      if mask in memo {
        return memo[mask];
      }
      if mask == {} {
        r := Some([]);
      } else {
        r := FirstCandidate(mask, Lowest(mask, |cands|));
      }
      memo := memo[mask := r];
    }
  }

  method NormalFinishOf(p: PlayerState, tiplu: Option<PhysicalCard>, rules: Rules) returns (r: Option<NormalFinish>)
    requires PlayerFormed(p) && (tiplu.Some? ==> tiplu.value.Standard?)
    ensures r == FindFinish(p, tiplu, rules)
    ensures r.Some? ==> ValidNormalFinish(p, tiplu, rules, r.value)
    ensures r.None? ==> forall w :: !ValidNormalFinish(p, tiplu, rules, w)
  {
    hide CompletionMeld;
    FinishSound(p, tiplu, rules);
    forall w | ValidNormalFinish(p, tiplu, rules, w) ensures FindFinish(p, tiplu, rules).Some? {
      FinishComplete(p, tiplu, rules, w);
    }
    if !MayFinishNormally(p, tiplu) {
      return None;
    }
    var cards := SortedById(Uncommitted(p));
    SortedUncommitted(p);
    CandidatesSound(cards, tiplu.value, rules);
    var cands := FillCandidates(cards, tiplu.value, rules);
    var table := new CoverTable(cands);
    for i := 0 to |cards|
      invariant table.Valid() && table.cands == cands
      invariant FirstFinish(p, cards, cands, 0) == FirstFinish(p, cards, cands, i)
    {
      if !InInitialTunnela(p, cards[i]) {
        var groups := table.Cover(Full(|cards|) - {i});
        if groups.Some? {
          return Some(NormalFinish(p.shownMelds + groups.value, cards[i]));
        }
      }
    }
    return None;
  }

  // ---- the seven-pair route

  // Standard uncommitted cards in id order.
  function PairCards(p: PlayerState): (r: seq<PhysicalCard>)
    requires PlayerFormed(p)
    ensures NoDup(r) && forall c :: c in r <==> c in p.hand && c !in p.committed && c.Standard?
  {
    var men := set c | c in p.hand && c.Man?;
    var cards := Without(p.hand, p.committed + men);
    WithoutNoDup(p.hand, p.committed + men);
    PermutationKeeps(SortedById(cards), cards);
    assert forall c :: c in SortedById(cards) <==> c in Elems(SortedById(cards));
    SortedById(cards)
  }

  predicate MayFinishByPair(p: PlayerState) {
    !p.folded && p.route == DubleeRoute && |p.shownMelds| == 7
  }

  function PairFor(cards: seq<PhysicalCard>, left: PhysicalCard, j: nat): (r: seq<CardId>)
    requires left.Standard? && j <= |cards| && forall c :: c in cards ==> c.Standard?
    ensures r == [] <==> forall k :: j <= k < |cards| ==> cards[k].face != left.face
    ensures r != [] ==> |r| == 2 && r[0] == left && exists k ::
            j <= k < |cards| && r[1] == cards[k] && cards[k].face == left.face
    decreases |cards| - j
  {
    if j == |cards| then []
    else if cards[j].face == left.face then [left, cards[j]]
    else PairFor(cards, left, j + 1)
  }

  function PairFrom(cards: seq<PhysicalCard>, i: nat): (r: seq<CardId>)
    requires i <= |cards| && forall c :: c in cards ==> c.Standard?
    ensures r == [] ==> forall a, b :: i <= a < b < |cards| ==> cards[a].face != cards[b].face
    ensures r != [] ==> |r| == 2 && exists a, b ::
            i <= a < b < |cards| && r == [cards[a], cards[b]] && cards[a].face == cards[b].face
    decreases |cards| - i
  {
    if i == |cards| then []
    else
      var pair := PairFor(cards, cards[i], i + 1);
      if pair != [] then pair else PairFrom(cards, i + 1)
  }

  // eighth_pair
  function EighthPair(p: PlayerState): seq<CardId>
    requires PlayerFormed(p)
  {
    if !MayFinishByPair(p) then [] else PairFrom(PairCards(p), 0)
  }

  // valid_eighth_pair
  predicate ValidEighthPair(p: PlayerState, pair: seq<CardId>) {
    && p.route == DubleeRoute && p.hasSeenMaal && |p.shownMelds| == 7
    && |pair| == 2 && |Elems(pair)| == 2
    && (forall i :: i in pair ==> i in p.hand && i !in p.committed && i.Standard?)
    && pair[0].face == pair[1].face
  }

  // The pair found is valid, and one is found whenever one exists.
  lemma EighthPairExact(p: PlayerState)
    requires PlayerFormed(p) && !p.folded && (p.route == DubleeRoute ==> p.hasSeenMaal)
    ensures EighthPair(p) != [] ==> ValidEighthPair(p, EighthPair(p))
    ensures EighthPair(p) == [] ==> forall pair :: !ValidEighthPair(p, pair)
  {
    hide PairFrom, PairCards, NoDup, PlayerFormed;
    if MayFinishByPair(p) {
      var cards := PairCards(p);
      if PairFrom(cards, 0) != [] {
        PairFound(p, cards, PairFrom(cards, 0));
      } else {
        hide ValidEighthPair;
        forall pair ensures !ValidEighthPair(p, pair) { NoPairLeft(p, cards, pair); }
      }
    }
  }

  lemma PairFound(p: PlayerState, cards: seq<PhysicalCard>, r: seq<CardId>)
    requires NoDup(cards) && forall c :: c in cards ==> c in p.hand && c !in p.committed && c.Standard?
    requires |r| == 2 && exists a, b :: 0 <= a < b < |cards| && r == [cards[a], cards[b]] && cards[a].face == cards[b].face
    ensures |Elems(r)| == 2 && (forall i :: i in r ==>
            i in p.hand && i !in p.committed && i.Standard?) && r[0].face == r[1].face
  {
    var a, b :| 0 <= a < b < |cards| && r == [cards[a], cards[b]] && cards[a].face == cards[b].face;
    NoDupSize(r);
    assert cards[a] in cards && cards[b] in cards;
  }

  lemma NoPairLeft(p: PlayerState, cards: seq<PhysicalCard>, pair: seq<CardId>)
    requires forall c :: c in cards <==> c in p.hand && c !in p.committed && c.Standard?
    requires forall a, b :: 0 <= a < b < |cards| ==> cards[a].face != cards[b].face
    ensures !ValidEighthPair(p, pair)
  {
    if |pair| == 2 && pair[0] in cards && pair[1] in cards {
      NoDupSize(pair);
      var a :| 0 <= a < |cards| && cards[a] == pair[0];
      var b :| 0 <= b < |cards| && cards[b] == pair[1];
      if a < b {
        assert cards[a].face != cards[b].face;
      } else if b < a {
        assert cards[b].face != cards[a].face;
      }
    }
  }

  // winning_discard: the card completes an uncommitted pair of its own face.
  predicate WinningDiscard(p: PlayerState, card: PhysicalCard) {
    && p.route == DubleeRoute && |p.shownMelds| == 7 && card.Standard?
    && exists c :: c in p.hand && c !in p.committed && c.Standard? && c.face == card.face && c != card
  }

  // After drawing the winning discard the forced finish is always available.
  lemma WinningDiscardFinishes(p: PlayerState, card: PhysicalCard)
    requires PlayerFormed(p) && !p.folded && p.hasSeenMaal && card !in p.hand
    requires WinningDiscard(p, card)
    ensures PlayerFormed(p.(hand := p.hand + [card]))
    ensures EighthPair(p.(hand := p.hand + [card])) != []
  {
    var q := p.(hand := p.hand + [card]);
    NoDupConcat(p.hand, [card]);
    ElemsConcat(p.hand, [card]);
    var c :| c in p.hand && c !in p.committed && c.Standard? && c.face == card.face && c != card;
    NoDupSize([c, card]);
    assert ValidEighthPair(q, [c, card]);
    EighthPairExact(q);
  }
}
