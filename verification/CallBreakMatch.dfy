// The reducer: state and command give a new state, a rejection, or (never, as
// CallBreakInvariant shows) an exception. And the audit of a whole match.
module CallBreakMatch {
  import opened Prelude
  import opened Cards
  import opened Dealing
  import opened CallBreakRules
  import opened CallBreakDeals

  const DEALS := 5

  datatype Phase =
    | AwaitingDeal | AwaitingShuffle | Shuffling | AwaitingCut | AwaitingDistribution
    | HandReview | AwaitingRedeal | Bidding | Playing | DealComplete | MatchComplete

  datatype Preparation = Preparation(number: nat, attempt: nat, dealer: nat, deck: seq<Card>, cut: Option<int>)
  datatype DealResult = DealResult(bids: seq<int>, tricksWon: seq<nat>, scores: seq<int>)
  datatype CompletedDeal = CompletedDeal(deal: Deal, result: DealResult)

  datatype Match = Match(
    config: Config, initialDealer: nat, phase: Phase, revision: nat,
    currentDeal: Option<Deal>, completed: seq<CompletedDeal>, abandoned: seq<Deal>, preparation: Option<Preparation>)

  datatype Control = StartDeal(deck: seq<Card>) | Redeal(deck: seq<Card>) | PrepareDeal | CompleteShuffle(deck: seq<Card>)
  datatype Action =
    | PlaceBid(amount: int) | PlayCard(card: Card) | AcceptHand | ClaimRedeal
    | ShuffleDeck | CutDeck(position: int) | SkipCut | StartDistribution

  datatype Outcome = Accepted(next: Match) | Rejected(code: Code) | Failed

  function NewMatch(config: Config, initialDealer: nat): Match {
    Match(config, initialDealer, AwaitingDeal, 0, None, [], [], None)
  }

  // ---- queries on the state

  function BidCount(players: seq<PlayerDeal>): nat {
    if players == [] then 0
    else BidCount(players[..|players| - 1]) + if players[|players| - 1].bid.Some? then 1 else 0
  }

  function CurrentOf(s: Match): Option<nat>
    requires s.config.count > 0
  {
    if s.preparation.Some? then
      var dealer := s.preparation.value.dealer;
      if s.phase == AwaitingShuffle || s.phase == AwaitingDistribution then Some(dealer)
      else if s.phase == AwaitingCut && dealer > 0 then Some(Advance(dealer, s.config.count, 1))
      else None
    else if s.currentDeal.None? then None
    else
      var deal := s.currentDeal.value;
      if s.phase == Bidding && deal.dealer > 0 then
          Some(Advance(deal.dealer, s.config.count, 1 + BidCount(deal.players)))
      else if s.phase == Playing && deal.currentTrick.Some? && deal.currentTrick.value.count > 0
               && deal.currentTrick.value.leader > 0 then
        CurrentPlayer(deal.currentTrick.value)
      else None
  }

  function TricksWonBy(tricks: seq<Trick>, id: nat): nat {
    if tricks == [] then 0
    else
      var last := tricks[|tricks| - 1];
      TricksWonBy(tricks[..|tricks| - 1], id) + if last.plays != [] && Winner(last) == id then 1 else 0
  }

  function TricksWon(deal: Deal): (r: seq<nat>)
    ensures |r| == |deal.players|
  {
    seq(|deal.players|, i requires 0 <= i < |deal.players| => TricksWonBy(deal.completed, deal.players[i].id))
  }

  function Total(values: seq<nat>): nat {
    if values == [] then 0 else Total(values[..|values| - 1]) + values[|values| - 1]
  }

  function ScoreOf(bid: int, tricks: int): int {
    if tricks >= bid then 10 * bid + (tricks - bid) else -10 * bid
  }

  // score_deal; None where it raises.
  function ScoreDeal(bids: seq<int>, tricks: seq<nat>): (r: Option<seq<int>>)
    ensures r.Some? ==> |r.value| == |bids|
  {
    if (|bids| != 4 && |bids| != 5) || |tricks| != |bids| then None
    else
      var maximum := EachOf(|bids|);
      if !(forall i :: 0 <= i < |bids| ==> 1 <= bids[i] <= maximum) then None
      else if !(forall i :: 0 <= i < |tricks| ==> tricks[i] <= maximum) || Total(tricks) != maximum then None
      else Some(seq(|bids|, i requires 0 <= i < |bids| => ScoreOf(bids[i], tricks[i])))
  }

  // redeal_reasons is nonempty.
  predicate RedealAllowed(hand: seq<Card>, policy: Policy) {
    || (policy.weakHandEnabled && forall i :: 0 <= i < |hand| ==> hand[i].rank <= policy.weakHandThreshold)
    || (policy.noSpadesEnabled && forall i :: 0 <= i < |hand| ==> hand[i].suit != Spades)
  }

  // ---- distribution

  function DealtPlayers(deck: seq<Card>, dealer: nat, count: nat, each: nat): (r: seq<PlayerDeal>)
    requires 1 <= dealer <= count && count * each <= |deck|
    ensures |r| == count
  {
    seq(count, p requires 0 <= p < count => PlayerDeal(p + 1,
        Stride(deck, HandIndex(dealer, count, p + 1), count, each), None))
  }

  function NewDeal(deck: seq<Card>, config: Config, number: nat, attempt: nat, dealer: nat): Deal
    requires ConfigFormed(config) && 1 <= dealer <= config.count && config.count * TricksPerDeal(config) <= |deck|
  {
    Deal(number, attempt, dealer, DealtPlayers(deck, dealer, config.count, TricksPerDeal(config)),
         deck[config.count * TricksPerDeal(config)..], None, [], [])
  }

  // _distribute
  function Distribute(s: Match, deck: seq<Card>, number: nat, attempt: nat, dealer: nat, abandoned: seq<Deal>): Outcome
    requires ConfigFormed(s.config)
  {
    if !(1 <= dealer <= s.config.count) || s.config.count * TricksPerDeal(s.config) > |deck| then Failed
    else
      var deal := NewDeal(deck, s.config, number, attempt, dealer);
      if !DealAudit(deal, s.config) then Rejected(InvalidDistribution)
      else
        Accepted(s.(phase := if RedealEnabled(s.config.policy) then HandReview else Bidding,
                    currentDeal := Some(deal), preparation := None, abandoned := s.abandoned + abandoned,
                    revision := s.revision + 1))
  }

  function NextDealer(s: Match, number: nat): nat
    requires s.config.count > 0 && s.initialDealer > 0 && number > 0
  {
    Advance(s.initialDealer, s.config.count, number - 1)
  }

  // ---- apply_control

  function ApplyControl(s: Match, command: Control): Outcome
    requires ConfigFormed(s.config) && s.initialDealer > 0
  {
    if s.phase == MatchComplete then Rejected(MatchFinished)
    else
      match command
      case PrepareDeal =>
        if s.phase != AwaitingDeal && s.phase != DealComplete && s.phase != AwaitingRedeal then Rejected(InvalidPhase)
        else if s.phase == AwaitingRedeal && s.currentDeal.None? then Failed
        else
          var number := |s.completed| + 1;
          var preparation :=
            if s.phase == AwaitingRedeal then
              Preparation(s.currentDeal.value.number, s.currentDeal.value.attempt + 1,
                  s.currentDeal.value.dealer, [], None)
            else Preparation(number, 1, NextDealer(s, number), [], None);
          Accepted(s.(currentDeal := None, preparation := Some(preparation), phase := AwaitingShuffle,
                      abandoned := s.abandoned + if s.currentDeal.Some? then [s.currentDeal.value] else [],
                      revision := s.revision + 1))
      case CompleteShuffle(deck) =>
        if s.phase != Shuffling then Rejected(InvalidPhase)
        else if !FullDeck(deck) then Rejected(InvalidDeck)
        else if s.preparation.None? then Failed
        else
          Accepted(s.(preparation := Some(s.preparation.value.(deck := deck)), phase := AwaitingCut,
              revision := s.revision + 1))
      case StartDeal(deck) =>
        if s.phase != AwaitingDeal && s.phase != DealComplete then Rejected(InvalidPhase)
        else if !FullDeck(deck) then Rejected(InvalidDeck)
        else Distribute(s, deck, |s.completed| + 1, 1, NextDealer(s, |s.completed| + 1), [])
      case Redeal(deck) =>
        if s.phase != AwaitingRedeal then Rejected(InvalidPhase)
        else if !FullDeck(deck) then Rejected(InvalidDeck)
        else if s.currentDeal.None? then Failed
        else
          var prior := s.currentDeal.value;
          Distribute(s, deck, prior.number, prior.attempt + 1, prior.dealer, [prior])
  }

  // ---- apply_player

  function InsertId(ids: seq<nat>, id: nat): seq<nat> {
    if ids == [] then [id] else if id <= ids[0] then [id] + ids else [ids[0]] + InsertId(ids[1..], id)
  }

  function WithBid(players: seq<PlayerDeal>, id: nat, amount: int): (r: seq<PlayerDeal>)
    ensures |r| == |players|
  {
    seq(|players|, i requires 0 <= i < |players| => if players[i].id == id then
        players[i].(bid := Some(amount)) else players[i])
  }

  function Dropped(hand: seq<Card>, card: Card): (r: seq<Card>)
    ensures forall c :: c in r <==> c in hand && c != card
  {
    if hand == [] then [] else if hand[0] == card then Dropped(hand[1..], card)
        else [hand[0]] + Dropped(hand[1..], card)
  }

  function WithoutCard(players: seq<PlayerDeal>, id: nat, card: Card): (r: seq<PlayerDeal>)
    ensures |r| == |players|
  {
    seq(|players|, i requires 0 <= i < |players| =>
      if players[i].id == id then players[i].(hand := Dropped(players[i].hand, card)) else players[i])
  }

  predicate AllBid(players: seq<PlayerDeal>) {
    forall i :: 0 <= i < |players| ==> players[i].bid.Some?
  }

  function Bids(players: seq<PlayerDeal>): (r: seq<int>)
    requires AllBid(players)
    ensures |r| == |players|
  {
    seq(|players|, i requires 0 <= i < |players| => players[i].bid.value)
  }

  // Handing in the deck: shuffle request, cut, skip.
  function ApplyPreparation(s: Match, id: nat, action: Action): Outcome
    requires ConfigFormed(s.config) && (action.ShuffleDeck? || action.CutDeck? || action.SkipCut?)
  {
    var expected := if action.ShuffleDeck? then AwaitingShuffle else AwaitingCut;
    if s.phase != expected then Rejected(InvalidPhase)
    else if CurrentOf(s) != Some(id) then Rejected(NotYourTurn)
    else if s.preparation.None? then Failed
    else if action.ShuffleDeck? then Accepted(s.(phase := Shuffling, revision := s.revision + 1))
    else if action.CutDeck? && !(1 <= action.position <= 51) then Rejected(InvalidCut)
    else
      var prep := s.preparation.value;
      if action.CutDeck? && action.position > |prep.deck| then Failed
      else
        var deck := if action.CutDeck? then Cut(prep.deck, action.position) else prep.deck;
        var cut := if action.CutDeck? then Some(action.position) else None;
        Accepted(s.(phase := AwaitingDistribution, preparation := Some(prep.(deck := deck, cut := cut)),
            revision := s.revision + 1))
  }

  function ApplyReview(s: Match, deal: Deal, id: nat, action: Action): Outcome
    requires ConfigFormed(s.config) && 1 <= id <= |deal.players|
  {
    if id in deal.accepted then Rejected(HandAlreadyAccepted)
    else if action.ClaimRedeal? then
      if deal.players[id - 1].hand == [] then Failed
      else if !RedealAllowed(deal.players[id - 1].hand, s.config.policy) then Rejected(RedealNotAllowed)
      else Accepted(s.(phase := AwaitingRedeal, revision := s.revision + 1))
    else
      var accepted := InsertId(deal.accepted, id);
      Accepted(s.(currentDeal := Some(deal.(accepted := accepted)),
                  phase := if |accepted| == s.config.count then Bidding else HandReview, revision := s.revision + 1))
  }

  function ApplyBid(s: Match, deal: Deal, id: nat, amount: int): Outcome
    requires ConfigFormed(s.config) && 1 <= id <= |deal.players|
  {
    if !(1 <= amount <= TricksPerDeal(s.config)) then Rejected(InvalidBid)
    else if deal.players[id - 1].bid.Some? then Rejected(AlreadyBid)
    else
      var players := WithBid(deal.players, id, amount);
      if AllBid(players) then
        if deal.dealer == 0 then Failed
        else
          var leader := Advance(deal.dealer, s.config.count, 1);
          Accepted(s.(currentDeal := Some(deal.(players := players,
              currentTrick := Some(Trick(s.config.count, leader, [])))),
                      phase := Playing, revision := s.revision + 1))
      else Accepted(s.(currentDeal := Some(deal.(players := players)), revision := s.revision + 1))
  }

  // The deal after a legal card, before the trick is settled.
  function Played(deal: Deal, id: nat, card: Card): Deal
    requires deal.currentTrick.Some?
  {
    var trick := deal.currentTrick.value;
    deal.(players := WithoutCard(deal.players, id, card),
        currentTrick := Some(trick.(plays := trick.plays + [Play(id, card)])))
  }

  function Archived(d: Deal): Deal
    requires d.currentTrick.Some?
  {
    d.(currentTrick := None, completed := d.completed + [d.currentTrick.value])
  }

  function Resumed(a: Deal, n: nat, leader: nat): Deal {
    a.(currentTrick := Some(Trick(n, leader, [])))
  }

  function ApplyPlay(s: Match, deal: Deal, id: nat, card: Card): Outcome
    requires ConfigFormed(s.config) && 1 <= id <= |deal.players|
  {
    if deal.currentTrick.None? || deal.currentTrick.value.count == 0 || deal.currentTrick.value.leader == 0 then Failed
    else
      match ValidatePlay(deal.players[id - 1].hand, deal.currentTrick.value, id, card)
      case Rejection(code) => Rejected(code)
      case Raised => Failed
      case Ok =>
        var played := Played(deal, id, card);
        var trick := played.currentTrick.value;
        if !TrickFormed(trick) then Failed
        else if !Complete(trick) then Accepted(s.(currentDeal := Some(played), revision := s.revision + 1))
        else
          var archived := Archived(played);
          if |archived.completed| < TricksPerDeal(s.config) then
            var next := Trick(s.config.count, Winner(trick), []);
            if !TrickFormed(next) then Failed
            else Accepted(s.(currentDeal := Some(Resumed(archived, s.config.count, Winner(trick))),
                revision := s.revision + 1))
          else FinishDeal(s, archived)
  }

  function FinishDeal(s: Match, deal: Deal): Outcome {
    if !AllBid(deal.players) then Failed
    else
      var scores := ScoreDeal(Bids(deal.players), TricksWon(deal));
      if scores.None? then Failed
      else
        var result := DealResult(Bids(deal.players), TricksWon(deal), scores.value);
        Accepted(s.(currentDeal := None, completed := s.completed + [CompletedDeal(deal, result)],
                    phase := if deal.number == DEALS then MatchComplete else DealComplete, revision := s.revision + 1))
  }

  function ExpectedPhase(action: Action): Phase {
    if action.PlaceBid? then Bidding else if action.PlayCard? then Playing else HandReview
  }

  function ApplyPlayer(s: Match, id: nat, action: Action): Outcome
    requires ConfigFormed(s.config)
  {
    if !(1 <= id <= s.config.count) then Rejected(InvalidPlayer)
    else if s.phase == MatchComplete then Rejected(MatchFinished)
    else if action.StartDistribution? then
      if s.phase != AwaitingDistribution then Rejected(InvalidPhase)
      else if CurrentOf(s) != Some(id) then Rejected(NotYourTurn)
      else if s.preparation.None? then Failed
      else
        var prep := s.preparation.value;
        Distribute(s, prep.deck, prep.number, prep.attempt, prep.dealer, [])
    else if action.ShuffleDeck? || action.CutDeck? || action.SkipCut? then ApplyPreparation(s, id, action)
    else if s.phase != ExpectedPhase(action) then Rejected(InvalidPhase)
    else if s.currentDeal.None? || id > |s.currentDeal.value.players| then Failed
    else
      var deal := s.currentDeal.value;
      if s.phase == HandReview then ApplyReview(s, deal, id, action)
      else if CurrentOf(s) != Some(id) then Rejected(NotYourTurn)
      else if action.PlaceBid? then ApplyBid(s, deal, id, action.amount)
      else ApplyPlay(s, deal, id, action.card)
  }

  // ---- audit_match

  predicate Preparing(phase: Phase) {
    phase == AwaitingShuffle || phase == Shuffling || phase == AwaitingCut || phase == AwaitingDistribution
  }

  predicate Active(phase: Phase) {
    phase == HandReview || phase == AwaitingRedeal || phase == Bidding || phase == Playing
  }

  predicate Formed(s: Match) {
    && ConfigFormed(s.config)
    && (s.currentDeal.Some? ==> TricksFormed(Tricks(s.currentDeal.value)))
    && (forall i :: 0 <= i < |s.completed| ==> TricksFormed(Tricks(s.completed[i].deal)))
    && (forall i :: 0 <= i < |s.abandoned| ==> TricksFormed(Tricks(s.abandoned[i])))
  }

  predicate PreparationOk(s: Match)
    requires s.config.count > 0 && s.initialDealer > 0
  {
    && (Preparing(s.phase) <==> s.preparation.Some?)
    && (s.preparation.Some? ==>
          var prep := s.preparation.value;
          && s.currentDeal.None?
          && prep.number == |s.completed| + 1 && 1 <= prep.number <= DEALS && prep.attempt >= 1
          && prep.dealer == NextDealer(s, prep.number)
          && (if s.phase == AwaitingCut || s.phase == AwaitingDistribution then FullDeck(prep.deck)
             else prep.deck == [])
          && (prep.cut.Some? ==> s.phase == AwaitingDistribution && 1 <= prep.cut.value <= 51))
  }

  predicate NoHandsLeft(players: seq<PlayerDeal>) {
    forall i :: 0 <= i < |players| ==> players[i].hand == []
  }

  predicate ArchiveOk(s: Match, i: nat)
    requires Formed(s) && s.initialDealer > 0 && i < |s.completed|
  {
    var deal, result := s.completed[i].deal, s.completed[i].result;
    && DealAudit(deal, s.config)
    && deal.number == i + 1 && deal.dealer == NextDealer(s, i + 1) && deal.currentTrick.None?
    && |deal.completed| == TricksPerDeal(s.config) && NoHandsLeft(deal.players)
    && AllBid(deal.players) && result.bids == Bids(deal.players) && result.tricksWon == TricksWon(deal)
    && ScoreDeal(result.bids, result.tricksWon) == Some(result.scores)
  }

  predicate NoBids(players: seq<PlayerDeal>) {
    forall i :: 0 <= i < |players| ==> players[i].bid.None?
  }

  predicate Unplayed(deal: Deal) {
    NoBids(deal.players) && deal.currentTrick.None? && deal.completed == []
  }

  function AllIds(n: nat): (r: seq<nat>)
    ensures |r| == n && forall i :: 0 <= i < n ==> r[i] == i + 1
  {
    seq(n, i => i + 1)
  }

  predicate CurrentOk(s: Match)
    requires Formed(s) && s.initialDealer > 0
  {
    && (Active(s.phase) <==> s.currentDeal.Some?)
    && (s.currentDeal.Some? ==>
          var deal := s.currentDeal.value;
          && DealAudit(deal, s.config)
          && deal.number == |s.completed| + 1 && deal.dealer == NextDealer(s, deal.number)
          && (s.phase == HandReview || s.phase == AwaitingRedeal ==> RedealEnabled(s.config.policy) && Unplayed(deal))
          && ((s.phase == Bidding || s.phase == Playing) && RedealEnabled(s.config.policy)
             ==> deal.accepted == AllIds(s.config.count))
          && (s.phase == Bidding ==> deal.currentTrick.None? && deal.completed == [] && !AllBid(deal.players))
          && (s.phase == Playing ==> deal.currentTrick.Some?))
  }

  predicate BoundariesOk(s: Match) {
    && |s.completed| <= DEALS
    && (s.phase == MatchComplete <==> |s.completed| == DEALS)
    && (s.phase == AwaitingDeal ==> s.completed == [])
    && (s.phase == DealComplete ==> 1 <= |s.completed| < DEALS)
  }

  predicate AbandonedOk(s: Match, i: nat)
    requires Formed(s) && i < |s.abandoned|
  {
    DealAudit(s.abandoned[i], s.config) && Unplayed(s.abandoned[i])
  }

  predicate AuditMatch(s: Match)
    requires Formed(s)
  {
    && 1 <= s.initialDealer <= s.config.count
    && PreparationOk(s)
    && (forall i :: 0 <= i < |s.completed| ==> ArchiveOk(s, i))
    && CurrentOk(s)
    && BoundariesOk(s)
    && forall i :: 0 <= i < |s.abandoned| ==> AbandonedOk(s, i)
  }

  // audit_match step by step, deal by deal.
  method CheckMatch(s: Match) returns (ok: bool)
    requires Formed(s)
    ensures ok <==> AuditMatch(s)
  {
    hide DealAudit, TricksFormed, FullDeck, TricksWon, Bids;
    if !(1 <= s.initialDealer <= s.config.count) || !PreparationOk(s) {
      return false;
    }
    for i := 0 to |s.completed|
      invariant forall k :: 0 <= k < i ==> ArchiveOk(s, k)
    {
      var fine := AuditDeal(s.completed[i].deal, s.config);
      if !fine || !ArchiveOk(s, i) {
        assert !ArchiveOk(s, i);
        return false;
      }
    }
    if s.currentDeal.Some? {
      var fine := AuditDeal(s.currentDeal.value, s.config);
      if !fine {
        return false;
      }
    }
    if !CurrentOk(s) || !BoundariesOk(s) {
      return false;
    }
    for i := 0 to |s.abandoned|
      invariant forall k :: 0 <= k < i ==> AbandonedOk(s, k)
    {
      var fine := AuditDeal(s.abandoned[i], s.config);
      if !fine || !Unplayed(s.abandoned[i]) {
        assert !AbandonedOk(s, i);
        return false;
      }
    }
    ok := true;
  }
}
