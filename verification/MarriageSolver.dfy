// normal_finish as an exact cover, and the check it must pass.
module MarriageSolver {
  // The cards to cover are the uncommitted ones. A mask of card indices is the
  // set of its bits.

  import opened Prelude
  import opened Cards
  import opened MarriageCards
  import opened MarriageModels
  import opened MarriageCompletion

  datatype Candidate = Candidate(mask: set<nat>, meld: Meld)

  // ---- what a finish is

  predicate MayFinishNormally(p: PlayerState, tiplu: Option<PhysicalCard>) {
    && !p.folded && p.route == Normal && p.hasSeenMaal
    && tiplu.Some? && |p.hand| == 22 && |p.shownMelds| == 3
  }

  // valid_normal_finish
  predicate ValidNormalFinish(p: PlayerState, tiplu: Option<PhysicalCard>, rules: Rules, w: NormalFinish)
    requires tiplu.Some? ==> tiplu.value.Standard?
  {
    && MayFinishNormally(p, tiplu)
    && |w.melds| >= 3 && w.melds[..3] == p.shownMelds
    && w.discard !in MeldIds(p.initialTunnelas)
    && var ids := MeldIds(w.melds);
    && |ids| == 21 && |Elems(ids)| == 21
    && w.discard !in ids
    && Elems(ids) + {w.discard} == Elems(p.hand)
    && forall k :: 3 <= k < |w.melds| ==>
         CompletionMeld(w.melds[k].ids, tiplu.value, rules) == Some(w.melds[k].kind)
  }

  // ---- enumeration of groups

  function Prefixed(x: nat, lists: seq<seq<nat>>): (r: seq<seq<nat>>)
    ensures |r| == |lists| && forall i :: 0 <= i < |r| ==> r[i] == [x] + lists[i]
  {
    seq(|lists|, i requires 0 <= i < |lists| => [x] + lists[i])
  }

  // itertools.combinations(range(start, n), size), in its order.
  function Combinations(start: nat, n: nat, size: nat): seq<seq<nat>>
    decreases n - start, size
  {
    if size == 0 then [[]]
    else if start >= n then []
    else Prefixed(start, Combinations(start + 1, n, size - 1)) + Combinations(start + 1, n, size)
  }

  predicate Increasing(c: seq<nat>, start: nat, n: nat) {
    && (forall i :: 0 <= i < |c| ==> start <= c[i] < n)
    && forall i, j :: 0 <= i < j < |c| ==> c[i] < c[j]
  }

  lemma {:induction false} CombinationsAre(start: nat, n: nat, size: nat)
    ensures forall c :: c in Combinations(start, n, size) <==> |c| == size && Increasing(c, start, n)
    decreases n - start, size
  {
    forall c: seq<nat> ensures c in Combinations(start, n, size) <==> |c| == size && Increasing(c, start, n) {
      CombinationIs(start, n, size, c);
    }
  }

  lemma {:induction false} CombinationIs(start: nat, n: nat, size: nat, c: seq<nat>)
    ensures c in Combinations(start, n, size) <==> |c| == size && Increasing(c, start, n)
    decreases n - start, size
  {
    hide Increasing;
    if size == 0 {
      EmptyIncreasing(c, start, n);
    } else if start >= n {
      EmptyIncreasing(c, start, n);
    } else {
      CombinationIs(start + 1, n, size, c);
      if c != [] {
        CombinationIs(start + 1, n, size - 1, c[1..]);
      }
      CombinationStep(start, n, size, c);
    }
  }

  lemma CombinationStep(start: nat, n: nat, size: nat, c: seq<nat>)
    requires size > 0 && start < n
    requires c in Combinations(start + 1, n, size) <==> |c| == size && Increasing(c, start + 1, n)
    requires c != [] ==>
               (c[1..] in Combinations(start + 1, n, size - 1) <==> |c[1..]| == size - 1 && Increasing(c[1..], start + 1, n))
    ensures c in Combinations(start, n, size) <==> |c| == size && Increasing(c, start, n)
  {
    hide Increasing;
    var tails := Combinations(start + 1, n, size - 1);
    InPrefixed(start, tails, c);
    assert c in Combinations(start, n, size) <==> c in Prefixed(start, tails) || c in Combinations(start + 1, n, size);
    if c == [] {
    } else if c[0] == start {
      IncreasingTail(c, n);
      NotLater(c, n);
    } else {
      IncreasingLater(c, start, n);
    }
  }

  lemma EmptyIncreasing(c: seq<nat>, start: nat, n: nat)
    ensures c == [] ==> Increasing(c, start, n)
    ensures c != [] && start >= n ==> !Increasing(c, start, n)
  {
    if c != [] { assert !(start <= c[0] < n) || start < n; }
  }

  lemma NotLater(c: seq<nat>, n: nat)
    requires c != []
    ensures !Increasing(c, c[0] + 1, n)
  {
    var lowest := c[0];
    if Increasing(c, lowest + 1, n) {
      assert false;
    }
  }

  lemma InPrefixed(x: nat, lists: seq<seq<nat>>, c: seq<nat>)
    ensures c in Prefixed(x, lists) <==> c != [] && c[0] == x && c[1..] in lists
  {
    var r := Prefixed(x, lists);
    if c in r {
      var i :| 0 <= i < |r| && r[i] == c;
      assert c[1..] == lists[i];
    }
    if c != [] && c[0] == x && c[1..] in lists {
      var i :| 0 <= i < |lists| && lists[i] == c[1..];
      assert r[i] == c;
    }
  }

  lemma IncreasingTail(c: seq<nat>, n: nat)
    requires c != [] && c[0] < n
    ensures Increasing(c, c[0], n) <==> Increasing(c[1..], c[0] + 1, n)
  {
    var d := c[1..];
    if Increasing(c, c[0], n) {
      forall i | 0 <= i < |d| ensures c[0] + 1 <= d[i] < n { assert c[0] < c[i + 1]; }
    }
    if Increasing(d, c[0] + 1, n) {
      forall i | 0 <= i < |c| ensures c[0] <= c[i] < n { if i > 0 { assert c[i] == d[i - 1]; } }
      forall i, j | 0 <= i < j < |c| ensures c[i] < c[j] {
        assert c[j] == d[j - 1];
        if i > 0 { assert c[i] == d[i - 1]; }
      }
    }
  }

  lemma IncreasingLater(c: seq<nat>, start: nat, n: nat)
    requires c == [] || c[0] != start
    ensures Increasing(c, start, n) <==> Increasing(c, start + 1, n)
  {
  }

  function Listed(cards: seq<PhysicalCard>, indices: seq<nat>): (r: seq<PhysicalCard>)
    requires Increasing(indices, 0, |cards|)
    ensures |r| == |indices|
  {
    seq(|indices|, i requires 0 <= i < |indices| => cards[indices[i]])
  }

  predicate AllIncreasing(combos: seq<seq<nat>>, n: nat) {
    forall k :: 0 <= k < |combos| ==> Increasing(combos[k], 0, n)
  }

  // What one combination adds.
  function Kept(cards: seq<PhysicalCard>, indices: seq<nat>, tiplu: PhysicalCard, rules: Rules): seq<Candidate>
    requires tiplu.Standard? && Increasing(indices, 0, |cards|)
  {
    var group := Listed(cards, indices);
    var kind := CompletionMeld(group, tiplu, rules);
    if kind.Some? then [Candidate(Elems(indices), Meld(kind.value, group))] else []
  }

  // The groups of a list of combinations that are melds.
  function Accepted(cards: seq<PhysicalCard>, combos: seq<seq<nat>>, tiplu: PhysicalCard, rules: Rules): seq<Candidate>
    requires tiplu.Standard? && AllIncreasing(combos, |cards|)
  {
    if combos == [] then []
    else
      Accepted(cards, combos[..|combos| - 1], tiplu, rules) +
      Kept(cards, combos[|combos| - 1], tiplu, rules)
  }

  // The melds of exactly this size.
  function OfSize(cards: seq<PhysicalCard>, size: nat, tiplu: PhysicalCard, rules: Rules): seq<Candidate>
    requires tiplu.Standard?
  {
    CombinationsAre(0, |cards|, size);
    Accepted(cards, Combinations(0, |cards|, size), tiplu, rules)
  }

  // All melds of 3 .. size - 1 cards, smaller ones first.
  function Groups(cards: seq<PhysicalCard>, size: nat, tiplu: PhysicalCard, rules: Rules): seq<Candidate>
    requires tiplu.Standard?
  {
    if size <= 3 then []
    else
      Groups(cards, size - 1, tiplu, rules) + OfSize(cards, size - 1, tiplu, rules)
  }

  // The groups an index belongs to, in the order found.
  function Containing(groups: seq<Candidate>, i: nat): seq<Candidate> {
    if groups == [] then []
    else
      var last := groups[|groups| - 1];
      Containing(groups[..|groups| - 1], i) + if i in last.mask then [last] else []
  }

  function Candidates(cards: seq<PhysicalCard>, tiplu: PhysicalCard, rules: Rules): (r: seq<seq<Candidate>>)
    requires tiplu.Standard?
    ensures |r| == |cards|
  {
    seq(|cards|, i requires 0 <= i < |cards| => Containing(Groups(cards, |cards|, tiplu, rules), i))
  }

  // ---- exact cover

  // candidates[i] only holds groups that contain i.
  predicate Indexed(cands: seq<seq<Candidate>>) {
    forall i, k :: 0 <= i < |cands| && 0 <= k < |cands[i]| ==> i in cands[i][k].mask
  }

  predicate Within(mask: set<nat>, n: nat) {
    forall i :: i in mask ==> i < n
  }

  // The lowest set bit at or above i.
  function LowestFrom(mask: set<nat>, i: nat, n: nat): (r: nat)
    requires Within(mask, n) && exists j :: j in mask && i <= j
    ensures r in mask && i <= r < n && forall j :: j in mask && i <= j ==> r <= j
    decreases n - i
  {
    if i in mask then i else LowestFrom(mask, i + 1, n)
  }

  function Lowest(mask: set<nat>, n: nat): (r: nat)
    requires Within(mask, n) && mask != {}
    ensures r in mask && forall j :: j in mask ==> r <= j
  {
    LowestFrom(mask, 0, n)
  }

  // Exact cover without the memo table.
  function Cover(cands: seq<seq<Candidate>>, mask: set<nat>): Option<seq<Meld>>
    requires Indexed(cands) && Within(mask, |cands|)
    decreases |mask|, 1, 0
  {
    if mask == {} then Some([]) else TryFrom(cands, mask, Lowest(mask, |cands|), 0)
  }

  function TryFrom(cands: seq<seq<Candidate>>, mask: set<nat>, first: nat, k: nat): Option<seq<Meld>>
    requires Indexed(cands) && Within(mask, |cands|) && first in mask && k <= |cands[first]|
    decreases |mask|, 0, |cands[first]| - k
  {
    if k == |cands[first]| then None
    else
      var c := cands[first][k];
      if c.mask <= mask then
        Smaller(mask, c.mask, first);
        var rest := Cover(cands, mask - c.mask);
        if rest.Some? then Some([c.meld] + rest.value) else TryFrom(cands, mask, first, k + 1)
      else TryFrom(cands, mask, first, k + 1)
  }

  lemma Smaller(mask: set<nat>, part: set<nat>, first: nat)
    requires first in part && part <= mask
    ensures |mask - part| < |mask|
  {
    SubsetFull(mask - part, mask);
  }

  function At(cards: seq<PhysicalCard>, mask: set<nat>): set<PhysicalCard>
    requires Within(mask, |cards|)
  {
    set i | i in mask :: cards[i]
  }

  // Every candidate is a meld made of exactly the cards of its mask.
  ghost predicate Sound(cands: seq<seq<Candidate>>, cards: seq<PhysicalCard>, tiplu: PhysicalCard, rules: Rules)
    requires tiplu.Standard?
  {
    && |cands| == |cards| && Indexed(cands)
    && forall i, k :: 0 <= i < |cands| && 0 <= k < |cands[i]| ==> SoundCandidate(cands[i][k], cards, tiplu, rules)
  }

  ghost predicate SoundCandidate(c: Candidate, cards: seq<PhysicalCard>, tiplu: PhysicalCard, rules: Rules)
    requires tiplu.Standard?
  {
    && Within(c.mask, |cards|)
    && Elems(c.meld.ids) == At(cards, c.mask)
    && CompletionMeld(c.meld.ids, tiplu, rules) == Some(c.meld.kind)
  }

  ghost predicate AllMelds(melds: seq<Meld>, tiplu: PhysicalCard, rules: Rules)
    requires tiplu.Standard?
  {
    forall k :: 0 <= k < |melds| ==> CompletionMeld(melds[k].ids, tiplu, rules) == Some(melds[k].kind)
  }

  // melds split the cards of the mask exactly.
  ghost predicate Partitions(melds: seq<Meld>, cards: seq<PhysicalCard>, mask: set<nat>, tiplu: PhysicalCard,
    rules: Rules)
    requires tiplu.Standard? && Within(mask, |cards|)
  {
    && AllMelds(melds, tiplu, rules)
    && NoDup(MeldIds(melds))
    && Elems(MeldIds(melds)) == At(cards, mask)
  }

  lemma {:induction false} CoverSound(cands: seq<seq<Candidate>>, cards: seq<PhysicalCard>, mask: set<nat>,
    tiplu: PhysicalCard, rules: Rules)
    requires tiplu.Standard? && NoDup(cards) && Sound(cands, cards, tiplu, rules) && Within(mask, |cards|)
    ensures Cover(cands, mask).Some? ==> Partitions(Cover(cands, mask).value, cards, mask, tiplu, rules)
    decreases |mask|, 1, 0
  {
    hide CompletionMeld, SoundCandidate, Partitions;
    if mask == {} {
      EmptyPartition(cards, tiplu, rules);
    } else {
      TrySound(cands, cards, mask, Lowest(mask, |cands|), 0, tiplu, rules);
    }
  }

  lemma EmptyPartition(cards: seq<PhysicalCard>, tiplu: PhysicalCard, rules: Rules)
    requires tiplu.Standard?
    ensures Partitions([], cards, {}, tiplu, rules)
  {
    hide CompletionMeld;
  }

  lemma {:induction false} TrySound(cands: seq<seq<Candidate>>, cards: seq<PhysicalCard>, mask: set<nat>,
    first: nat, k: nat,
                                    tiplu: PhysicalCard, rules: Rules)
    requires tiplu.Standard? && NoDup(cards) && Sound(cands, cards, tiplu, rules) && Within(mask, |cards|)
    requires first in mask && k <= |cands[first]|
    ensures TryFrom(cands, mask, first, k).Some? ==>
              Partitions(TryFrom(cands, mask, first, k).value, cards, mask, tiplu, rules)
    decreases |mask|, 0, |cands[first]| - k
  {
    hide CompletionMeld, SoundCandidate, Partitions;
    if k < |cands[first]| {
      var c := cands[first][k];
      TrySound(cands, cards, mask, first, k + 1, tiplu, rules);
      if c.mask <= mask {
        Smaller(mask, c.mask, first);
        CoverSound(cands, cards, mask - c.mask, tiplu, rules);
        var rest := Cover(cands, mask - c.mask);
        if rest.Some? {
          AddPart(c, rest.value, cards, mask, tiplu, rules);
        }
      }
    }
  }

  lemma AddPart(c: Candidate, rest: seq<Meld>, cards: seq<PhysicalCard>, mask: set<nat>, tiplu: PhysicalCard,
    rules: Rules)
    requires tiplu.Standard? && NoDup(cards) && Within(mask, |cards|) && c.mask <= mask
    requires SoundCandidate(c, cards, tiplu, rules)
    requires Partitions(rest, cards, mask - c.mask, tiplu, rules)
    ensures Partitions([c.meld] + rest, cards, mask, tiplu, rules)
  {
    hide CompletionMeld;
    MeldDistinct(c.meld.ids, tiplu, rules);
    var all := [c.meld] + rest;
    assert all[1..] == rest;
    NoDupConcat(c.meld.ids, MeldIds(rest));
    ElemsConcat(c.meld.ids, MeldIds(rest));
    AtSplit(cards, mask, c.mask);
  }

  lemma AtSplit(cards: seq<PhysicalCard>, mask: set<nat>, part: set<nat>)
    requires NoDup(cards) && Within(mask, |cards|) && part <= mask
    ensures At(cards, mask - part) == At(cards, mask) - At(cards, part)
    ensures At(cards, part) <= At(cards, mask)
  {
    forall x | x in At(cards, mask - part) ensures x !in At(cards, part) {
      var i :| i in mask - part && cards[i] == x;
      forall k | k in part ensures cards[k] != x { assert i != k; }
    }
    forall x | x in At(cards, mask) && x !in At(cards, part) ensures x in At(cards, mask - part) {
      var i :| i in mask && cards[i] == x;
      assert i !in part;
    }
  }

  // Every meld of 3 .. n - 1 cards is among the candidates of each of its indices.
  ghost predicate Exhaustive(cands: seq<seq<Candidate>>, cards: seq<PhysicalCard>, tiplu: PhysicalCard, rules: Rules)
    requires tiplu.Standard?
  {
    && |cands| == |cards|
    && forall mask: set<nat>, i ::
         Within(mask, |cards|) && 3 <= |mask| < |cards| && Meaning(At(cards, mask), tiplu, rules).Some? && i in mask
         ==> exists k :: 0 <= k < |cands[i]| && cands[i][k].mask == mask
  }

  lemma {:induction false} TryFinds(cands: seq<seq<Candidate>>, mask: set<nat>, first: nat, k: nat, hit: nat)
    requires Indexed(cands) && Within(mask, |cands|) && first in mask
    requires k <= hit < |cands[first]| && cands[first][hit].mask <= mask
    requires Cover(cands, mask - cands[first][hit].mask).Some?
    ensures TryFrom(cands, mask, first, k).Some?
    decreases hit - k
  {
    if k < hit {
      TryFinds(cands, mask, first, k + 1, hit);
    }
  }

  lemma {:induction false} CoverComplete(cands: seq<seq<Candidate>>, cards: seq<PhysicalCard>, mask: set<nat>,
    melds: seq<Meld>,
                                         tiplu: PhysicalCard, rules: Rules)
    requires tiplu.Standard? && NoDup(cards) && Indexed(cands) && Exhaustive(cands, cards, tiplu, rules)
    requires Within(mask, |cards|) && |mask| < |cards|
    requires Partitions(melds, cards, mask, tiplu, rules)
    ensures Cover(cands, mask).Some?
    decreases |mask|
  {
    hide CompletionMeld;
    if mask != {} {
      var first := Lowest(mask, |cands|);
      assert cards[first] in Elems(MeldIds(melds));
      var j := FindMeld(melds, cards[first]);
      var part := IndicesOf(melds, j, cards, mask);
      Classification(melds[j].ids, tiplu, rules);
      MeldDistinct(melds[j].ids, tiplu, rules);
      PartSize(melds[j].ids, cards, part);
      SubsetFull(part, mask);
      assert first in part;
      assert Meaning(At(cards, part), tiplu, rules).Some?;
      var hit :| 0 <= hit < |cands[first]| && cands[first][hit].mask == part;
      var rest := melds[..j] + melds[j + 1..];
      RemovePart(melds, j, cards, mask, part, tiplu, rules);
      Smaller(mask, part, first);
      CoverComplete(cands, cards, mask - part, rest, tiplu, rules);
      TryFinds(cands, mask, first, 0, hit);
    }
  }

  lemma {:induction false} FindMeld(melds: seq<Meld>, c: CardId) returns (j: nat)
    requires c in MeldIds(melds)
    ensures j < |melds| && c in melds[j].ids
  {
    if c in melds[0].ids {
      j := 0;
    } else {
      var k := FindMeld(melds[1..], c);
      j := k + 1;
    }
  }

  lemma IndicesOf(melds: seq<Meld>, j: nat, cards: seq<PhysicalCard>, mask: set<nat>) returns (part: set<nat>)
    requires j < |melds| && Within(mask, |cards|) && Elems(MeldIds(melds)) == At(cards, mask)
    ensures part <= mask && At(cards, part) == Elems(melds[j].ids)
    ensures forall i :: i in mask && cards[i] in melds[j].ids ==> i in part
  {
    part := set i | i in mask && cards[i] in melds[j].ids;
    MeldIdsContain(melds, j);
    forall x | x in melds[j].ids ensures x in At(cards, part) {
      assert x in At(cards, mask);
      var i :| i in mask && cards[i] == x;
      assert i in part;
    }
  }

  // Distinct cards have as many indices as they are.
  lemma PartSize(ids: seq<CardId>, cards: seq<PhysicalCard>, part: set<nat>)
    requires NoDup(cards) && NoDup(ids) && Within(part, |cards|) && At(cards, part) == Elems(ids)
    ensures |part| == |ids|
  {
    NoDupSize(ids);
    var g := map i | i in part :: cards[i];
    ImageSize(g);
    assert g.Keys == part;
    assert g.Values == At(cards, part) by {
      forall x | x in At(cards, part) ensures x in g.Values {
        var i :| i in part && cards[i] == x;
        assert g[i] == x;
      }
    }
  }

  lemma RemovePart(melds: seq<Meld>, j: nat, cards: seq<PhysicalCard>, mask: set<nat>, part: set<nat>,
                   tiplu: PhysicalCard, rules: Rules)
    requires tiplu.Standard? && NoDup(cards) && Within(mask, |cards|) && part <= mask && j < |melds|
    requires Partitions(melds, cards, mask, tiplu, rules) && At(cards, part) == Elems(melds[j].ids)
    ensures Partitions(melds[..j] + melds[j + 1..], cards, mask - part, tiplu, rules)
  {
    hide CompletionMeld;
    var a, m, b := melds[..j], melds[j], melds[j + 1..];
    assert melds == a + [m] + b;
    WithoutMiddle(a, m, b);
    AtSplit(cards, mask, part);
  }

  lemma WithoutMiddle(a: seq<Meld>, m: Meld, b: seq<Meld>)
    requires NoDup(MeldIds(a + [m] + b))
    ensures NoDup(MeldIds(a + b))
    ensures Elems(MeldIds(a + b)) == Elems(MeldIds(a + [m] + b)) - Elems(m.ids)
  {
    MeldIdsConcat(a + [m], b);
    MeldIdsConcat(a, [m]);
    MeldIdsConcat(a, b);
    assert MeldIds([m]) == m.ids by {
      assert [m][1..] == [];
      assert m.ids + [] == m.ids;
    }
    NoDupConcat(MeldIds(a) + m.ids, MeldIds(b));
    NoDupConcat(MeldIds(a), m.ids);
    NoDupConcat(MeldIds(a), MeldIds(b));
    ElemsConcat(MeldIds(a) + m.ids, MeldIds(b));
    ElemsConcat(MeldIds(a), m.ids);
    ElemsConcat(MeldIds(a), MeldIds(b));
  }

  // ---- the candidates are sound and exhaustive

  lemma ListedIs(cards: seq<PhysicalCard>, indices: seq<nat>)
    requires NoDup(cards) && Increasing(indices, 0, |cards|)
    ensures Elems(Listed(cards, indices)) == At(cards, Elems(indices))
    ensures NoDup(Listed(cards, indices)) && |Elems(indices)| == |indices|
  {
    var group := Listed(cards, indices);
    NoDupSize(indices);
    forall x | x in At(cards, Elems(indices)) ensures x in group {
      var i :| i in Elems(indices) && cards[i] == x;
      var k :| 0 <= k < |indices| && indices[k] == i;
      assert group[k] == x;
    }
    forall x | x in group ensures x in At(cards, Elems(indices)) {
      var k :| 0 <= k < |group| && group[k] == x;
      assert indices[k] in Elems(indices);
    }
  }

  ghost predicate AllSound(groups: seq<Candidate>, cards: seq<PhysicalCard>, tiplu: PhysicalCard, rules: Rules)
    requires tiplu.Standard?
  {
    forall k :: 0 <= k < |groups| ==> SoundCandidate(groups[k], cards, tiplu, rules)
  }

  lemma {:induction false} AcceptedSound(cards: seq<PhysicalCard>, combos: seq<seq<nat>>, tiplu: PhysicalCard,
    rules: Rules)
    requires tiplu.Standard? && NoDup(cards) && AllIncreasing(combos, |cards|)
    ensures AllSound(Accepted(cards, combos, tiplu, rules), cards, tiplu, rules)
  {
    hide CompletionMeld;
    if combos != [] {
      AcceptedSound(cards, combos[..|combos| - 1], tiplu, rules);
      ListedIs(cards, combos[|combos| - 1]);
    }
  }

  lemma {:induction false} GroupsSound(cards: seq<PhysicalCard>, size: nat, tiplu: PhysicalCard, rules: Rules)
    requires tiplu.Standard? && NoDup(cards)
    ensures AllSound(Groups(cards, size, tiplu, rules), cards, tiplu, rules)
  {
    hide CompletionMeld, Accepted, Combinations, SoundCandidate;
    if size > 3 {
      GroupsSound(cards, size - 1, tiplu, rules);
      CombinationsAre(0, |cards|, size - 1);
      AcceptedSound(cards, Combinations(0, |cards|, size - 1), tiplu, rules);
    }
  }

  ghost predicate HasMask(groups: seq<Candidate>, mask: set<nat>) {
    exists c :: c in groups && c.mask == mask
  }

  lemma HasMaskLeft(a: seq<Candidate>, b: seq<Candidate>, mask: set<nat>)
    requires HasMask(a, mask)
    ensures HasMask(a + b, mask)
  {
    var c :| c in a && c.mask == mask;
    assert c in a + b;
  }

  lemma HasMaskRight(a: seq<Candidate>, b: seq<Candidate>, mask: set<nat>)
    requires HasMask(b, mask)
    ensures HasMask(a + b, mask)
  {
    var c :| c in b && c.mask == mask;
    assert c in a + b;
  }

  lemma KeptHas(cards: seq<PhysicalCard>, indices: seq<nat>, tiplu: PhysicalCard, rules: Rules)
    requires tiplu.Standard? && Increasing(indices, 0, |cards|)
    requires CompletionMeld(Listed(cards, indices), tiplu, rules).Some?
    ensures HasMask(Kept(cards, indices, tiplu, rules), Elems(indices))
  {
    assert Kept(cards, indices, tiplu, rules)[0].mask == Elems(indices);
  }

  lemma {:induction false} AcceptedHas(cards: seq<PhysicalCard>, combos: seq<seq<nat>>, k: nat,
    tiplu: PhysicalCard, rules: Rules)
    requires tiplu.Standard? && AllIncreasing(combos, |cards|) && k < |combos|
    requires CompletionMeld(Listed(cards, combos[k]), tiplu, rules).Some?
    ensures HasMask(Accepted(cards, combos, tiplu, rules), Elems(combos[k]))
  {
    hide CompletionMeld;
    var last := |combos| - 1;
    if k < last {
      AcceptedHas(cards, combos[..last], k, tiplu, rules);
      HasMaskLeft(Accepted(cards, combos[..last], tiplu, rules), Kept(cards, combos[last], tiplu, rules),
          Elems(combos[k]));
    } else {
      KeptHas(cards, combos[k], tiplu, rules);
      HasMaskRight(Accepted(cards, combos[..last], tiplu, rules), Kept(cards, combos[last], tiplu, rules),
          Elems(combos[k]));
    }
  }

  lemma OfSizeHas(cards: seq<PhysicalCard>, indices: seq<nat>, tiplu: PhysicalCard, rules: Rules)
    requires tiplu.Standard? && Increasing(indices, 0, |cards|)
    requires CompletionMeld(Listed(cards, indices), tiplu, rules).Some?
    ensures HasMask(OfSize(cards, |indices|, tiplu, rules), Elems(indices))
  {
    hide CompletionMeld;
    CombinationsAre(0, |cards|, |indices|);
    var combos := Combinations(0, |cards|, |indices|);
    assert indices in combos;
    var k :| 0 <= k < |combos| && combos[k] == indices;
    AcceptedHas(cards, combos, k, tiplu, rules);
  }

  lemma {:induction false} GroupsHas(cards: seq<PhysicalCard>, size: nat, indices: seq<nat>,
    tiplu: PhysicalCard, rules: Rules)
    requires tiplu.Standard? && Increasing(indices, 0, |cards|) && 3 <= |indices| < size
    requires CompletionMeld(Listed(cards, indices), tiplu, rules).Some?
    ensures HasMask(Groups(cards, size, tiplu, rules), Elems(indices))
  {
    hide CompletionMeld, OfSize, HasMask, Elems, Listed;
    if |indices| < size - 1 {
      GroupsHas(cards, size - 1, indices, tiplu, rules);
      HasMaskLeft(Groups(cards, size - 1, tiplu, rules), OfSize(cards, size - 1, tiplu, rules), Elems(indices));
    } else {
      OfSizeHas(cards, indices, tiplu, rules);
      HasMaskRight(Groups(cards, size - 1, tiplu, rules), OfSize(cards, size - 1, tiplu, rules), Elems(indices));
    }
  }

  lemma {:induction false} ContainingIs(groups: seq<Candidate>, i: nat)
    ensures forall c :: c in Containing(groups, i) <==> c in groups && i in c.mask
  {
    if groups != [] {
      ContainingIs(groups[..|groups| - 1], i);
      assert groups == groups[..|groups| - 1] + [groups[|groups| - 1]];
    }
  }

  // The members of a set of indices in order.
  function Ordered(mask: set<nat>, n: nat): (r: seq<nat>)
    ensures Increasing(r, 0, n)
    ensures forall i :: i in r <==> i in mask && i < n
  {
    if n == 0 then []
    else
      var before := Ordered(mask, n - 1);
      if n - 1 in mask then before + [n - 1] else before
  }

  lemma CandidatesSound(cards: seq<PhysicalCard>, tiplu: PhysicalCard, rules: Rules)
    requires tiplu.Standard? && NoDup(cards)
    ensures Sound(Candidates(cards, tiplu, rules), cards, tiplu, rules)
  {
    hide CompletionMeld;
    var cands: seq<seq<Candidate>> := Candidates(cards, tiplu, rules);
    var groups := Groups(cards, |cards|, tiplu, rules);
    GroupsSound(cards, |cards|, tiplu, rules);
    forall i, k | 0 <= i < |cands| && 0 <= k < |cands[i]|
      ensures i in cands[i][k].mask && SoundCandidate(cands[i][k], cards, tiplu, rules)
    {
      ContainingIs(groups, i);
      assert cands[i][k] in Containing(groups, i);
    }
  }

  lemma CandidatesExhaustive(cards: seq<PhysicalCard>, tiplu: PhysicalCard, rules: Rules)
    requires tiplu.Standard? && NoDup(cards)
    ensures Exhaustive(Candidates(cards, tiplu, rules), cards, tiplu, rules)
  {
    hide CompletionMeld;
    var cands: seq<seq<Candidate>> := Candidates(cards, tiplu, rules);
    var groups := Groups(cards, |cards|, tiplu, rules);
    forall mask: set<nat>, i | Within(mask, |cards|) && 3 <= |mask| < |cards|
                               && Meaning(At(cards, mask), tiplu, rules).Some? && i in mask
      ensures exists k :: 0 <= k < |cands[i]| && cands[i][k].mask == mask
    {
      var indices := Ordered(mask, |cards|);
      assert Elems(indices) == mask;
      ListedIs(cards, indices);
      Classification(Listed(cards, indices), tiplu, rules);
      GroupsHas(cards, |cards|, indices, tiplu, rules);
      var c :| c in groups && c.mask == mask;
      ContainingIs(groups, i);
      assert c in cands[i];
    }
  }

  // ---- the search for a finish

  function Uncommitted(p: PlayerState): (r: seq<PhysicalCard>)
    ensures forall c :: c in r <==> c in p.hand && c !in p.committed
  {
    Without(p.hand, p.committed)
  }

  function Without(cards: seq<PhysicalCard>, gone: set<CardId>): (r: seq<PhysicalCard>)
    ensures forall c :: c in r <==> c in cards && c !in gone
  {
    if cards == [] then []
    else if cards[0] in gone then Without(cards[1..], gone)
    else [cards[0]] + Without(cards[1..], gone)
  }

  lemma {:induction false} WithoutNoDup(cards: seq<PhysicalCard>, gone: set<CardId>)
    requires NoDup(cards)
    ensures NoDup(Without(cards, gone))
  {
    if cards != [] {
      WithoutNoDup(cards[1..], gone);
      assert cards[0] !in cards[1..];
    }
  }

  function Full(n: nat): (r: set<nat>)
    ensures forall i: nat :: i in r <==> i < n
    ensures |r| == n
  {
    if n == 0 then {} else Full(n - 1) + {n - 1}
  }

  // The first discard, in id order, that leaves an exact cover.
  function FirstFinish(p: PlayerState, cards: seq<PhysicalCard>, cands: seq<seq<Candidate>>,
    i: nat): Option<NormalFinish>
    requires Indexed(cands) && |cands| == |cards| && i <= |cards|
    decreases |cards| - i
  {
    if i == |cards| then None
    else if InInitialTunnela(p, cards[i]) then FirstFinish(p, cards, cands, i + 1)
    else
      var groups := Cover(cands, Full(|cards|) - {i});
      if groups.Some? then Some(NormalFinish(p.shownMelds + groups.value, cards[i]))
      else FirstFinish(p, cards, cands, i + 1)
  }

  // normal_finish
  function FindFinish(p: PlayerState, tiplu: Option<PhysicalCard>, rules: Rules): Option<NormalFinish>
    requires PlayerFormed(p) && (tiplu.Some? ==> tiplu.value.Standard?)
  {
    if !MayFinishNormally(p, tiplu) then None
    else
      var cards := SortedById(Uncommitted(p));
      SortedUncommitted(p);
      CandidatesSound(cards, tiplu.value, rules);
      FirstFinish(p, cards, Candidates(cards, tiplu.value, rules), 0)
  }

  lemma SortedUncommitted(p: PlayerState)
    requires PlayerFormed(p)
    ensures var cards := SortedById(Uncommitted(p));
            NoDup(cards) && Elems(cards) == Elems(p.hand) - p.committed && |cards| == |p.hand| - |p.committed|
  {
    hide SortedById, NoDup;
    var cards := SortedById(Uncommitted(p));
    WithoutNoDup(p.hand, p.committed);
    PermutationKeeps(cards, Uncommitted(p));
    assert Elems(Uncommitted(p)) == Elems(p.hand) - p.committed;
    NoDupSize(cards);
    NoDupSize(p.hand);
    assert Elems(p.hand) == (Elems(p.hand) - p.committed) + p.committed;
  }

  lemma AtFull(cards: seq<PhysicalCard>, i: nat)
    requires NoDup(cards) && i < |cards|
    ensures At(cards, Full(|cards|) - {i}) == Elems(cards) - {cards[i]}
  {
    forall x | x in Elems(cards) - {cards[i]} ensures x in At(cards, Full(|cards|) - {i}) {
      var k :| 0 <= k < |cards| && cards[k] == x;
      assert k in Full(|cards|) - {i};
    }
  }

  // A cover of everything but one card is a valid finish, and conversely.
  lemma FinishIsPartition(p: PlayerState, tiplu: PhysicalCard, rules: Rules, cards: seq<PhysicalCard>, i: nat,
    melds: seq<Meld>)
    requires PlayerFormed(p) && tiplu.Standard? && MayFinishNormally(p, Some(tiplu))
    requires cards == SortedById(Uncommitted(p)) && i < |cards|
    ensures ValidNormalFinish(p, Some(tiplu), rules, NormalFinish(p.shownMelds + melds, cards[i]))
            <==> !InInitialTunnela(p, cards[i]) && Partitions(melds, cards, Full(|cards|) - {i}, tiplu, rules)
  {
    hide CompletionMeld;
    var all := p.shownMelds + melds;
    SortedUncommitted(p);
    AtFull(cards, i);
    assert all[..3] == p.shownMelds;
    assert all[3..] == melds;
    MeldsAfterThree(all, tiplu, rules);
    MeldIdsConcat(p.shownMelds, melds);
    assert cards[i] in Elems(cards);
    IdsSplit(p.hand, MeldIds(p.shownMelds), MeldIds(melds), cards[i]);
    NoDupSize(MeldIds(all));
  }

  lemma MeldsAfterThree(all: seq<Meld>, tiplu: PhysicalCard, rules: Rules)
    requires tiplu.Standard? && |all| >= 3
    ensures AllMelds(all[3..], tiplu, rules) <==>
            forall k :: 3 <= k < |all| ==> CompletionMeld(all[k].ids, tiplu, rules) == Some(all[k].kind)
  {
    hide CompletionMeld;
    var melds := all[3..];
    if AllMelds(melds, tiplu, rules) {
      forall k | 3 <= k < |all| ensures CompletionMeld(all[k].ids, tiplu, rules) == Some(all[k].kind) {
        assert melds[k - 3] == all[k];
      }
    }
  }

  lemma IdsSplit(hand: seq<PhysicalCard>, shown: seq<CardId>, ids: seq<CardId>, discard: CardId)
    requires NoDup(hand) && |hand| == 22 && NoDup(shown) && Elems(shown) <= Elems(hand)
    requires discard in Elems(hand) - Elems(shown)
    ensures && |shown + ids| == 21 && NoDup(shown + ids) && discard !in shown + ids
            && Elems(shown + ids) + {discard} == Elems(hand)
            <==> NoDup(ids) && Elems(ids) == Elems(hand) - Elems(shown) - {discard}
  {
    var all := shown + ids;
    NoDupConcat(shown, ids);
    ElemsConcat(shown, ids);
    if NoDup(ids) && Elems(ids) == Elems(hand) - Elems(shown) - {discard} {
      assert Elems(all) == Elems(hand) - {discard};
      NoDupSize(all);
      NoDupSize(hand);
    }
    if NoDup(all) && discard !in all && Elems(all) + {discard} == Elems(hand) {
      assert discard !in Elems(all);
      assert Elems(ids) == Elems(hand) - Elems(shown) - {discard};
    }
  }

  lemma {:induction false} FirstFinishSound(p: PlayerState, tiplu: PhysicalCard, rules: Rules, cards: seq<PhysicalCard>,
                                            cands: seq<seq<Candidate>>, i: nat)
    requires PlayerFormed(p) && tiplu.Standard? && MayFinishNormally(p, Some(tiplu))
    requires cards == SortedById(Uncommitted(p)) && Sound(cands, cards, tiplu, rules) && i <= |cards|
    ensures var r := FirstFinish(p, cards, cands, i);
            r.Some? ==> ValidNormalFinish(p, Some(tiplu), rules, r.value)
    decreases |cards| - i
  {
    hide CompletionMeld, ValidNormalFinish, Partitions, SoundCandidate, Cover;
    if i < |cards| {
      FirstFinishSound(p, tiplu, rules, cards, cands, i + 1);
      var groups := Cover(cands, Full(|cards|) - {i});
      if !InInitialTunnela(p, cards[i]) && groups.Some? {
        SortedUncommitted(p);
        CoverSound(cands, cards, Full(|cards|) - {i}, tiplu, rules);
        FinishIsPartition(p, tiplu, rules, cards, i, groups.value);
      }
    }
  }

  // A later success is a success.
  lemma {:induction false} FirstFinishReaches(p: PlayerState, cards: seq<PhysicalCard>,
    cands: seq<seq<Candidate>>, i: nat, hit: nat)
    requires Indexed(cands) && |cands| == |cards| && i <= hit < |cards|
    requires FirstFinish(p, cards, cands, hit).Some?
    ensures FirstFinish(p, cards, cands, i).Some?
    decreases hit - i
  {
    if i < hit {
      FirstFinishReaches(p, cards, cands, i + 1, hit);
      FirstFinishStep(p, cards, cands, i);
    }
  }

  lemma FirstFinishStep(p: PlayerState, cards: seq<PhysicalCard>, cands: seq<seq<Candidate>>, i: nat)
    requires Indexed(cands) && |cands| == |cards| && i < |cards|
    ensures FirstFinish(p, cards, cands, i + 1).Some? ==> FirstFinish(p, cards, cands, i).Some?
    ensures !InInitialTunnela(p, cards[i]) && Cover(cands, Full(|cards|) - {i}).Some? ==>
              FirstFinish(p, cards, cands, i).Some?
  {
    hide CompletionMeld;
  }

  lemma LeavingOne(cands: seq<seq<Candidate>>, cards: seq<PhysicalCard>, i: nat, melds: seq<Meld>,
                   tiplu: PhysicalCard, rules: Rules)
    requires tiplu.Standard? && NoDup(cards) && Indexed(cands) && |cands| == |cards|
    requires Exhaustive(cands, cards, tiplu, rules)
    requires i < |cards| && Partitions(melds, cards, Full(|cards|) - {i}, tiplu, rules)
    ensures Cover(cands, Full(|cards|) - {i}).Some?
  {
    hide CompletionMeld;
    Smaller(Full(|cards|), {i}, i);
    CoverComplete(cands, cards, Full(|cards|) - {i}, melds, tiplu, rules);
  }

  // Soundness: a witness that is returned passes the check on client selections.
  lemma FinishSound(p: PlayerState, tiplu: Option<PhysicalCard>, rules: Rules)
    requires PlayerFormed(p) && (tiplu.Some? ==> tiplu.value.Standard?)
    ensures var r := FindFinish(p, tiplu, rules);
            r.Some? ==> ValidNormalFinish(p, tiplu, rules, r.value)
  {
    hide CompletionMeld;
    if MayFinishNormally(p, tiplu) {
      var cards := SortedById(Uncommitted(p));
      SortedUncommitted(p);
      CandidatesSound(cards, tiplu.value, rules);
      FirstFinishSound(p, tiplu.value, rules, cards, Candidates(cards, tiplu.value, rules), 0);
    }
  }

  // Completeness: when any selection at all would pass, a witness is returned.
  lemma FinishComplete(p: PlayerState, tiplu: Option<PhysicalCard>, rules: Rules, w: NormalFinish)
    requires PlayerFormed(p) && (tiplu.Some? ==> tiplu.value.Standard?)
    requires ValidNormalFinish(p, tiplu, rules, w)
    ensures FindFinish(p, tiplu, rules).Some?
  {
    hide CompletionMeld, Partitions, SortedById, Uncommitted, PlayerFormed, NoDup;
    var cards := SortedById(Uncommitted(p));
    var melds := w.melds[3..];
    assert w.melds == p.shownMelds + melds;
    assert MayFinishNormally(p, tiplu) && !InInitialTunnela(p, w.discard);
    hide ValidNormalFinish;
    var hit := DiscardIndex(p, tiplu, rules, w);
    assert w == NormalFinish(p.shownMelds + melds, cards[hit]);
    FinishIsPartition(p, tiplu.value, rules, cards, hit, melds);
    SearchComplete(p, tiplu.value, rules, cards, hit, melds);
  }

  lemma DiscardIndex(p: PlayerState, tiplu: Option<PhysicalCard>, rules: Rules, w: NormalFinish) returns (hit: nat)
    requires PlayerFormed(p) && (tiplu.Some? ==> tiplu.value.Standard?)
    requires ValidNormalFinish(p, tiplu, rules, w)
    ensures var cards := SortedById(Uncommitted(p)); hit < |cards| && cards[hit] == w.discard
  {
    hide CompletionMeld, SortedById;
    var cards := SortedById(Uncommitted(p));
    SortedUncommitted(p);
    MeldIdsConcat(w.melds[..3], w.melds[3..]);
    assert w.melds == w.melds[..3] + w.melds[3..];
    assert w.discard in Elems(p.hand) - p.committed;
    assert w.discard in cards;
    hit :| 0 <= hit < |cards| && cards[hit] == w.discard;
  }

  lemma SearchComplete(p: PlayerState, tiplu: PhysicalCard, rules: Rules, cards: seq<PhysicalCard>, hit: nat,
    melds: seq<Meld>)
    requires PlayerFormed(p) && tiplu.Standard? && MayFinishNormally(p, Some(tiplu))
    requires cards == SortedById(Uncommitted(p)) && hit < |cards| && !InInitialTunnela(p, cards[hit])
    requires Partitions(melds, cards, Full(|cards|) - {hit}, tiplu, rules)
    ensures FindFinish(p, Some(tiplu), rules).Some?
  {
    hide CompletionMeld;
    SortedUncommitted(p);
    CandidatesSound(cards, tiplu, rules);
    CandidatesExhaustive(cards, tiplu, rules);
    var cands := Candidates(cards, tiplu, rules);
    LeavingOne(cands, cards, hit, melds, tiplu, rules);
    FirstFinishStep(p, cards, cands, hit);
    FirstFinishReaches(p, cards, cands, 0, hit);
  }
}
