// A deal and the audit that rebuilds its initial hands and replays its plays.
module CallBreakDeals {
  import opened Prelude
  import opened Cards
  import opened Dealing
  import opened CallBreakRules

  datatype Policy = Policy(weakHandEnabled: bool, weakHandThreshold: Rank, noSpadesEnabled: bool)
  datatype Config = Config(count: nat, policy: Policy)

  predicate ConfigFormed(c: Config) {
    (c.count == 4 || c.count == 5) && (c.policy.weakHandThreshold == JACK || c.policy.weakHandThreshold == QUEEN)
  }

  function TricksPerDeal(c: Config): nat
    requires c.count > 0
  {
    EachOf(c.count)
  }

  predicate RedealEnabled(policy: Policy) {
    policy.weakHandEnabled || policy.noSpadesEnabled
  }

  datatype PlayerDeal = PlayerDeal(id: nat, hand: seq<Card>, bid: Option<int>)

  datatype Deal = Deal(
    number: nat, attempt: nat, dealer: nat,
    players: seq<PlayerDeal>, undealt: seq<Card>,
    currentTrick: Option<Trick>, completed: seq<Trick>, accepted: seq<nat>)

  function Tricks(deal: Deal): seq<Trick> {
    deal.completed + if deal.currentTrick.Some? then [deal.currentTrick.value] else []
  }

  // Tricks exist only in the form their constructor allows.
  predicate TricksFormed(tricks: seq<Trick>) {
    forall i :: 0 <= i < |tricks| ==> TrickFormed(tricks[i])
  }

  // ---- rebuilt hands

  function AllPlays(tricks: seq<Trick>): seq<Play> {
    if tricks == [] then [] else AllPlays(tricks[..|tricks| - 1]) + tricks[|tricks| - 1].plays
  }

  // The cards one player played, in order.
  function CardsBy(plays: seq<Play>, id: nat): seq<Card> {
    if plays == [] then []
    else
      var last := plays[|plays| - 1];
      CardsBy(plays[..|plays| - 1], id) + if last.player == id then [last.card] else []
  }

  function Rebuilt(players: seq<PlayerDeal>, tricks: seq<Trick>): (r: seq<seq<Card>>)
    ensures |r| == |players|
    ensures forall q :: 0 <= q < |r| ==> r[q] == players[q].hand + CardsBy(AllPlays(tricks), q + 1)
  {
    seq(|players|, q requires 0 <= q < |players| => players[q].hand + CardsBy(AllPlays(tricks), q + 1))
  }

  function Sets(hands: seq<seq<Card>>): (r: seq<set<Card>>)
    ensures |r| == |hands| && forall q :: 0 <= q < |r| ==> r[q] == Elems(hands[q])
  {
    seq(|hands|, q requires 0 <= q < |hands| => Elems(hands[q]))
  }

  function HandSets(players: seq<PlayerDeal>): (r: seq<set<Card>>)
    ensures |r| == |players| && forall q :: 0 <= q < |r| ==> r[q] == Elems(players[q].hand)
  {
    seq(|players|, q requires 0 <= q < |players| => Elems(players[q].hand))
  }

  // ---- replay

  datatype Table = Table(hands: seq<set<Card>>, leader: nat)

  predicate Seated(plays: seq<Play>, n: nat) {
    forall i :: 0 <= i < |plays| ==> 1 <= plays[i].player <= n
  }

  // Every play of a trick through the validator; the hands it leaves.
  function ReplayPlays(hands: seq<set<Card>>, leader: nat, plays: seq<Play>): (r: Option<seq<set<Card>>>)
    requires |hands| > 0 && leader > 0 && Seated(plays, |hands|)
    ensures r.Some? ==> |r.value| == |hands|
  {
    if plays == [] then Some(hands)
    else
      var init, last := plays[..|plays| - 1], plays[|plays| - 1];
      var before := ReplayPlays(hands, leader, init);
      if before.Some? && PlayAllowed(before.value[last.player - 1], Trick(|hands|, leader, init), last.player,
          last.card) then
        Some(before.value[last.player - 1 := before.value[last.player - 1] - {last.card}])
      else None
  }

  function ReplayTrick(table: Table, t: Trick): (r: Option<Table>)
    requires |table.hands| > 0 && TrickFormed(t) && t.count == |table.hands|
    ensures r.Some? ==> |r.value.hands| == |table.hands|
  {
    if t.leader != table.leader then None
    else
      FormedSeated(t);
      var hands := ReplayPlays(table.hands, t.leader, t.plays);
      if hands.None? then None
      else Some(Table(hands.value, if Complete(t) then Winner(t) else t.leader))
  }

  lemma FormedSeated(t: Trick)
    requires TrickFormed(t)
    ensures Seated(t.plays, t.count) && t.leader > 0
  {
  }

  predicate SameTable(tricks: seq<Trick>, n: nat) {
    forall i :: 0 <= i < |tricks| ==> tricks[i].count == n
  }

  function ReplayTricks(start: Table, tricks: seq<Trick>): (r: Option<Table>)
    requires |start.hands| > 0 && TricksFormed(tricks) && SameTable(tricks, |start.hands|)
    ensures r.Some? ==> |r.value.hands| == |start.hands|
  {
    if tricks == [] then Some(start)
    else
      var before := ReplayTricks(start, tricks[..|tricks| - 1]);
      if before.None? then None else ReplayTrick(before.value, tricks[|tricks| - 1])
  }

  lemma {:induction false} ReplayPrefix(start: Table, tricks: seq<Trick>, k: nat)
    requires |start.hands| > 0 && TricksFormed(tricks) && SameTable(tricks, |start.hands|) && k <= |tricks|
    ensures ReplayTricks(start, tricks).Some? ==> ReplayTricks(start, tricks[..k]).Some?
  {
    if k < |tricks| {
      assert tricks[..|tricks| - 1][..k] == tricks[..k];
      ReplayPrefix(start, tricks[..|tricks| - 1], k);
    } else {
      assert tricks[..k] == tricks;
    }
  }

  lemma {:induction false} PlaysPrefix(hands: seq<set<Card>>, leader: nat, plays: seq<Play>, k: nat)
    requires |hands| > 0 && leader > 0 && Seated(plays, |hands|) && k <= |plays|
    ensures Seated(plays[..k], |hands|)
    ensures ReplayPlays(hands, leader, plays).Some? ==> ReplayPlays(hands, leader, plays[..k]).Some?
  {
    if k < |plays| {
      assert plays[..|plays| - 1][..k] == plays[..k];
      PlaysPrefix(hands, leader, plays[..|plays| - 1], k);
    } else {
      assert plays[..k] == plays;
    }
  }

  // ---- the audit

  predicate AcceptedOk(accepted: seq<nat>, n: nat) {
    && (forall i :: 0 <= i < |accepted| ==> 1 <= accepted[i] <= n)
    && forall i, j :: 0 <= i < j < |accepted| ==> accepted[i] < accepted[j]
  }

  predicate RosterOk(players: seq<PlayerDeal>, n: nat) {
    |players| == n && forall i :: 0 <= i < n ==> players[i].id == i + 1
  }

  // The bid of the player i-th to bid after the dealer.
  function BidAt(deal: Deal, i: nat): Option<int>
    requires |deal.players| > 0 && deal.dealer > 0
  {
    deal.players[Advance(deal.dealer, |deal.players|, i + 1) - 1].bid
  }

  predicate BidsOk(deal: Deal, tricksPerDeal: nat)
    requires |deal.players| > 0 && deal.dealer > 0
  {
    && (forall i :: 0 <= i < |deal.players| && deal.players[i].bid.Some? ==>
       1 <= deal.players[i].bid.value <= tricksPerDeal)
    && (forall i, j :: 0 <= i < j < |deal.players| && BidAt(deal, i).None? ==> BidAt(deal, j).None?)
    && (Tricks(deal) != [] ==> forall i :: 0 <= i < |deal.players| ==> BidAt(deal, i).Some?)
  }

  predicate TricksOk(deal: Deal, n: nat, tricksPerDeal: nat) {
    && |deal.completed| <= tricksPerDeal
    && (deal.currentTrick.Some? ==> !Complete(deal.currentTrick.value) && |deal.completed| < tricksPerDeal)
    && SameTable(Tricks(deal), n)
    && forall i :: 0 <= i < |deal.completed| ==> Complete(deal.completed[i])
  }

  predicate HandsOk(deal: Deal, n: nat, tricksPerDeal: nat)
    requires n > 0
  {
    var hands := Rebuilt(deal.players, Tricks(deal));
    && |deal.undealt| == LeftOver(n)
    && (forall q :: 0 <= q < |hands| ==> |hands[q]| == tricksPerDeal)
    && FullDeck(deal.undealt + Flat(hands))
  }

  function Opening(deal: Deal): (t: Table)
    requires |deal.players| > 0 && deal.dealer > 0
    ensures |t.hands| == |deal.players|
  {
    Table(Sets(Rebuilt(deal.players, Tricks(deal))), Advance(deal.dealer, |deal.players|, 1))
  }

  // audit_deal
  predicate DealAudit(deal: Deal, config: Config)
    requires ConfigFormed(config) && TricksFormed(Tricks(deal))
  {
    var n := config.count;
    && RosterOk(deal.players, n)
    && 1 <= deal.number <= 5 && deal.attempt >= 1 && 1 <= deal.dealer <= n
    && AcceptedOk(deal.accepted, n)
    && BidsOk(deal, TricksPerDeal(config))
    && TricksOk(deal, n, TricksPerDeal(config))
    && HandsOk(deal, n, TricksPerDeal(config))
    && ReplayTricks(Opening(deal), Tricks(deal)).Some?
  }

  // ---- audit_deal step by step, on lists

  function RemoveFirst(hand: seq<Card>, card: Card): seq<Card> {
    if hand == [] then [] else if hand[0] == card then hand[1..] else [hand[0]] + RemoveFirst(hand[1..], card)
  }

  lemma {:induction false} RemoveFirstIs(hand: seq<Card>, card: Card)
    requires NoDup(hand)
    ensures NoDup(RemoveFirst(hand, card)) && Elems(RemoveFirst(hand, card)) == Elems(hand) - {card}
  {
    if hand != [] {
      var rest := hand[1..];
      assert hand == [hand[0]] + rest;
      NoDupConcat([hand[0]], rest);
      if hand[0] == card {
        assert card in Elems([hand[0]]);
      } else {
        RemoveFirstIs(rest, card);
        assert Elems([hand[0]]) == {hand[0]};
        NoDupConcat([hand[0]], RemoveFirst(rest, card));
        ElemsConcat([hand[0]], RemoveFirst(rest, card));
        ElemsConcat([hand[0]], rest);
      }
    }
  }

  lemma HandsDistinct(deal: Deal, n: nat, tricksPerDeal: nat)
    requires n > 0 && HandsOk(deal, n, tricksPerDeal)
    ensures forall q :: 0 <= q < |deal.players| ==> NoDup(Rebuilt(deal.players, Tricks(deal))[q])
  {
    var hands := Rebuilt(deal.players, Tricks(deal));
    FullDeckIsDistinct(deal.undealt + Flat(hands));
    NoDupConcat(deal.undealt, Flat(hands));
    forall q | 0 <= q < |hands| ensures NoDup(hands[q]) { FlatParts(hands, q); }
  }

  lemma CardsByNext(plays: seq<Play>, play: Play, id: nat)
    ensures CardsBy(plays + [play], id) == CardsBy(plays, id) + if play.player == id then [play.card] else []
  {
    assert (plays + [play])[..|plays|] == plays;
  }

  lemma AllPlaysNext(tricks: seq<Trick>, t: Trick)
    ensures AllPlays(tricks + [t]) == AllPlays(tricks) + t.plays
  {
    assert (tricks + [t])[..|tricks|] == tricks;
  }

  predicate RebuiltFrom(hands: seq<seq<Card>>, players: seq<PlayerDeal>, plays: seq<Play>) {
    |hands| == |players| && forall q :: 0 <= q < |hands| ==> hands[q] == players[q].hand + CardsBy(plays, q + 1)
  }

  // hands = [list(p.hand) ...] with every play appended to its player's list.
  method RebuildHands(players: seq<PlayerDeal>, tricks: seq<Trick>) returns (hands: array<seq<Card>>)
    requires |players| > 0 && TricksFormed(tricks) && SameTable(tricks, |players|)
    ensures fresh(hands) && hands[..] == Rebuilt(players, tricks)
  {
    hide CardsBy, TrickFormed;
    hands := new seq<Card>[|players|](q requires 0 <= q < |players| => players[q].hand);
    NothingPlayed(players);
    for i := 0 to |tricks|
      invariant RebuiltFrom(hands[..], players, AllPlays(tricks[..i]))
    {
      FormedSeated(tricks[i]);
      assert tricks[..i + 1] == tricks[..i] + [tricks[i]];
      AllPlaysNext(tricks[..i], tricks[i]);
      AppendPlays(hands, players, AllPlays(tricks[..i]), tricks[i].plays);
    }
    assert tricks[..|tricks|] == tricks;
  }

  lemma NothingPlayed(players: seq<PlayerDeal>)
    ensures forall q :: 0 <= q < |players| ==> players[q].hand + CardsBy([], q + 1) == players[q].hand
  {
  }

  method AppendPlays(hands: array<seq<Card>>, players: seq<PlayerDeal>, ghost before: seq<Play>, plays: seq<Play>)
    requires RebuiltFrom(hands[..], players, before) && Seated(plays, hands.Length)
    modifies hands
    ensures RebuiltFrom(hands[..], players, before + plays)
  {
    hide CardsBy;
    assert before + plays[..0] == before;
    for j := 0 to |plays|
      invariant RebuiltFrom(hands[..], players, before + plays[..j])
    {
      var play := plays[j];
      assert before + plays[..j + 1] == (before + plays[..j]) + [play];
      forall id ensures CardsBy(before + plays[..j + 1], id) ==
                        CardsBy(before + plays[..j], id) + if play.player == id then [play.card] else [] {
        CardsByNext(before + plays[..j], play, id);
      }
      hands[play.player - 1] := hands[play.player - 1] + [play.card];
    }
    assert plays[..|plays|] == plays;
  }

  // Replays one trick, taking each card out of its player's list.
  method ReplayOnLists(hands: array<seq<Card>>, t: Trick, ghost table: Table) returns (ok: bool)
    requires hands.Length > 0 && TrickFormed(t) && t.count == hands.Length && t.leader == table.leader
    requires table.hands == Sets(hands[..]) && forall q :: 0 <= q < hands.Length ==> NoDup(hands[q])
    modifies hands
    ensures ok <==> ReplayTrick(table, t).Some?
    ensures ok ==> ReplayTrick(table, t).value.hands == Sets(hands[..]) && forall q ::
            0 <= q < hands.Length ==> NoDup(hands[q])
  {
    hide ReplayPlays, ValidatePlay, PlayAllowed, RemoveFirst, Elems, NoDup, Winner, TrickFormed;
    FormedSeated(t);
    NothingReplayed(table.hands, t.leader, t.plays);
    for j := 0 to |t.plays|
      invariant Seated(t.plays[..j], |table.hands|)
      invariant ReplayPlays(table.hands, t.leader, t.plays[..j]) == Some(Sets(hands[..]))
      invariant forall q :: 0 <= q < hands.Length ==> NoDup(hands[q])
    {
      var play := t.plays[j];
      var prefix := Trick(t.count, t.leader, t.plays[..j]);
      var verdict := ValidatePlay(hands[play.player - 1], prefix, play.player, play.card);
      ValidateIsAllowed(hands[play.player - 1], prefix, play.player, play.card);
      ReplayNext(table.hands, t.leader, t.plays, j);
      if verdict != Ok {
        return false;
      }
      RemoveFirstIs(hands[play.player - 1], play.card);
      ghost var before := Sets(hands[..]);
      hands[play.player - 1] := RemoveFirst(hands[play.player - 1], play.card);
      assert Sets(hands[..]) == before[play.player - 1 := before[play.player - 1] - {play.card}];
    }
    assert t.plays[..|t.plays|] == t.plays;
    ok := true;
  }

  lemma NothingReplayed(hands: seq<set<Card>>, leader: nat, plays: seq<Play>)
    requires |hands| > 0 && leader > 0
    ensures ReplayPlays(hands, leader, plays[..0]) == Some(hands)
  {
  }

  // One more play, as far as the replay of a whole trick is concerned.
  lemma ReplayNext(hands: seq<set<Card>>, leader: nat, plays: seq<Play>, j: nat)
    requires |hands| > 0 && leader > 0 && Seated(plays, |hands|) && j < |plays|
    ensures Seated(plays[..j + 1], |hands|)
    ensures var before := ReplayPlays(hands, leader, plays[..j]);
            var after := ReplayPlays(hands, leader, plays[..j + 1]);
            var play := plays[j];
            before.Some? ==>
              if PlayAllowed(before.value[play.player - 1], Trick(|hands|, leader, plays[..j]), play.player,
                  play.card) then
                after == Some(before.value[play.player - 1 := before.value[play.player - 1] - {play.card}])
              else after.None? && ReplayPlays(hands, leader, plays).None?
  {
    hide PlayAllowed;
    assert plays[..j + 1][..j] == plays[..j];
    PlaysPrefix(hands, leader, plays, j + 1);
  }

  method CheckBids(deal: Deal, tricksPerDeal: nat) returns (ok: bool)
    requires |deal.players| > 0 && deal.dealer > 0
    ensures ok <==> BidsOk(deal, tricksPerDeal)
  {
    for i := 0 to |deal.players|
      invariant forall k :: 0 <= k < i && deal.players[k].bid.Some? ==> 1 <= deal.players[k].bid.value <= tricksPerDeal
    {
      if deal.players[i].bid.Some? && !(1 <= deal.players[i].bid.value <= tricksPerDeal) {
        return false;
      }
    }
    var firstMissing := 0;
    while firstMissing < |deal.players| && BidAt(deal, firstMissing).Some?
      invariant firstMissing <= |deal.players|
      invariant forall i :: 0 <= i < firstMissing ==> BidAt(deal, i).Some?
    {
      firstMissing := firstMissing + 1;
    }
    for i := firstMissing to |deal.players|
      invariant firstMissing <= i
      invariant forall k :: firstMissing <= k < i ==> BidAt(deal, k).None?
    {
      if BidAt(deal, i).Some? {
        return false;
      }
    }
    ok := Tricks(deal) == [] || firstMissing == |deal.players|;
  }

  method AuditDeal(deal: Deal, config: Config) returns (ok: bool)
    requires ConfigFormed(config) && TricksFormed(Tricks(deal))
    ensures ok <==> DealAudit(deal, config)
  {
    hide CardsBy, AllPlays, Flat, FullDeck, TrickFormed, BidAt, BidsOk, Winner, Advance;
    var n, perDeal := config.count, TricksPerDeal(config);
    if !RosterOk(deal.players, n) || !(1 <= deal.number <= 5) || deal.attempt < 1 || !(1 <= deal.dealer <= n)
       || !AcceptedOk(deal.accepted, n) {
      return false;
    }
    var bidsOk := CheckBids(deal, perDeal);
    if !bidsOk || !TricksOk(deal, n, perDeal) {
      return false;
    }
    var tricks := Tricks(deal);
    var hands := RebuildHands(deal.players, tricks);
    if |deal.undealt| != LeftOver(n) || !(forall q :: 0 <= q < hands.Length ==> |hands[q]| == perDeal)
       || !FullDeck(deal.undealt + Flat(hands[..])) {
      assert hands[..] == Rebuilt(deal.players, tricks);
      return false;
    }
    HandsDistinct(deal, n, perDeal);
    ghost var start := Opening(deal);
    var leader: nat := Advance(deal.dealer, n, 1);
    assert tricks[..0] == [];
    for i := 0 to |tricks|
      invariant ReplayTricks(start, tricks[..i]) == Some(Table(Sets(hands[..]), leader))
      invariant forall q :: 0 <= q < hands.Length ==> NoDup(hands[q])
    {
      assert tricks[..i + 1][..i] == tricks[..i];
      ReplayPrefix(start, tricks, i + 1);
      if tricks[i].leader != leader {
        return false;
      }
      var fine := ReplayOnLists(hands, tricks[i], Table(Sets(hands[..]), leader));
      if !fine {
        return false;
      }
      leader := if Complete(tricks[i]) then Winner(tricks[i]) else tricks[i].leader;
    }
    assert tricks[..|tricks|] == tricks;
    ok := true;
  }
}
