// Every command as a function from a state to a candidate and its events, or a
// refusal. Crashed stands for an exception that is no refusal; FlushInvariant
// shows that no command ever ends there.
module FlushSteps {
  import opened Prelude
  import opened Cards
  import opened Dealing
  import opened FlushEvaluator
  import opened FlushModels
  import opened FlushAudit

  datatype Outcome = Rejected(error: Error) | Accepted(candidate: State, specs: seq<Spec>)

  // ---- settlement

  // Seats in clockwise order from the dealer's left.
  function Clockwise(ids: seq<string>, dealer: nat): (r: seq<string>)
    requires dealer < |ids|
    ensures |r| == |ids| && forall i :: 0 <= i < |r| ==> r[i] == ids[Around(dealer + 1 + i, |ids|)]
  {
    seq(|ids|, i requires 0 <= i < |ids| => ids[Around(dealer + 1 + i, |ids|)])
  }

  function Only(ids: seq<string>, keep: seq<string>): (r: seq<string>)
    ensures forall id :: id in r <==> id in ids && id in keep
    ensures |r| <= |ids|
  {
    if ids == [] then []
    else
      assert ids == ids[..|ids| - 1] + [ids[|ids| - 1]];
      Only(ids[..|ids| - 1], keep) + if ids[|ids| - 1] in keep then [ids[|ids| - 1]] else []
  }

  // Equal shares, the odd points one each to the first in order.
  function Shares(winners: seq<string>, pot: int): (r: seq<Payout>)
    requires winners != []
    ensures |r| == |winners|
    ensures forall i :: 0 <= i < |r| ==>
              r[i] == Payout(winners[i], pot / |winners| + if i < pot % |winners| then 1 else 0)
  {
    seq(|winners|, i requires 0 <= i < |winners| => Payout(winners[i],
        pot / |winners| + if i < pot % |winners| then 1 else 0))
  }

  function Graded(policy: AcePolicy, players: seq<Player>): (r: Option<seq<HandResult>>)
    ensures r.Some? ==> |r.value| == |players|
  {
    if players == [] then Some([])
    else
      var before, last := Graded(policy, players[..|players| - 1]), Evaluate(policy, players[|players| - 1].cards);
      if before.Some? && last.Some? then Some(before.value + [last.value]) else None
  }

  // The ids whose result is the best one, in seat order.
  function BestIds(players: seq<Player>, results: seq<HandResult>, best: HandResult): (r: seq<string>)
    requires |results| == |players|
  {
    if players == [] then []
    else
      var k := |players| - 1;
      BestIds(players[..k], results[..k], best) + if results[k] == best then [players[k].id] else []
  }

  function Without(ids: seq<string>, id: string): (r: seq<string>)
    ensures forall x :: x in r <==> x in ids && x != id
  {
    if ids == [] then []
    else
      assert ids == ids[..|ids| - 1] + [ids[|ids| - 1]];
      Without(ids[..|ids| - 1], id) + if ids[|ids| - 1] != id then [ids[|ids| - 1]] else []
  }

  function Show(players: seq<Player>): (r: seq<ShownHand>)
    ensures |r| == |players| && forall i :: 0 <= i < |r| ==> r[i] == ShownHand(players[i].id, players[i].cards)
  {
    seq(|players|, i requires 0 <= i < |players| => ShownHand(players[i].id, players[i].cards))
  }

  // The state with its round settled in favour of these ids.
  function Settled(s: State, reason: Reason, chosen: seq<string>, shown: seq<ShownHand>,
    hand: Option<HandResult>): Option<State> {
    if s.config.dealerId !in s.config.playerIds then None
    else
      var winners := Only(Clockwise(s.config.playerIds, IndexOf(s.config.playerIds, s.config.dealerId)), chosen);
      if winners == [] then None
      else
        Some(s.(pendingShow := None, revealed := shown, status := Finished, currentSeat := None,
                settlement := Some(Settlement(reason, winners, Shares(winners, s.pot), shown, hand))))
  }

  // settle; None where it raises.
  function Settle(s: State, requester: Option<string>): Option<State> {
    var active := Actives(s.players);
    if active == [] then None
    else if requester.None? then
      Settled(s, if s.pendingShow.Some? then ShowFold else LastPlayerRemaining, [active[0].id],
              if s.pendingShow.Some? then s.revealed else [], None)
    else
      var results := Graded(s.config.rules.acePolicy, active);
      if results.None? then None
      else
        var best := Best(results.value);
        var winners := BestIds(active, results.value, best);
        Settled(s, ShowReason,
                if |winners| > 1 && s.config.rules.tiePolicy == RequesterLoses then
                    Without(winners, requester.value) else winners,
                Show(active), Some(best))
  }

  // _finish, on the outcome of settle.
  function Finish(settled: Option<State>, specs: seq<Spec>): Outcome {
    if settled.None? || settled.value.settlement.None? then Rejected(Crashed)
    else
      var c := settled.value;
      var r := c.settlement.value;
      Accepted(c.(results := c.results + [RoundResult(c.roundNumber, r.winners, NetChanges(c.players, r.payouts))]),
               specs + [Spec(RoundFinished, None, c.pot, r.winners, r.shown, None, None)])
  }

  // ---- committing

  function Numbered(specs: seq<Spec>, before: nat, revision: nat): (r: seq<Event>)
    ensures |r| == |specs| && forall i :: 0 <= i < |r| ==> r[i] == Event(before + i + 1, revision, specs[i])
  {
    seq(|specs|, i requires 0 <= i < |specs| => Event(before + i + 1, revision, specs[i]))
  }

  // _commit, up to the audit.
  function Commit(s: State, candidate: State, specs: seq<Spec>): State {
    candidate.(revision := s.revision + 1, history := s.history + Numbered(specs, |s.history|, s.revision + 1))
  }

  // ---- preparing a round

  function StartGame(s: State): Outcome {
    if s.status != Waiting then Rejected(InvalidAction)
    else if s.config.dealerId !in s.config.playerIds then Rejected(Crashed)
    else
      var c := s.(status := AwaitingDeal, currentSeat := Some(IndexOf(s.config.playerIds, s.config.dealerId)));
      if CurrentId(c).None? then Rejected(Crashed)
      else Accepted(c, [Spec(GameStarted, None, 0, [], [], None, None), Note(TurnChanged, CurrentId(c).value)])
  }

  function NewRound(s: State, config: Config, seat: nat): State {
    State(config, FreshPlayers(config.playerIds), [], AwaitingDeal, Some(seat), 0, 0, 0, s.revision, None,
        None, None, [], [],
          s.history, s.roundNumber + 1, s.revision + 1, s.results)
  }

  // prepare_next_round; start_next_round has no roster of its own.
  function PrepareNextRound(s: State, id: string, roster: Option<seq<string>>): Outcome {
    if s.status != Finished then Rejected(InvalidAction)
    else if roster.None? && (s.settlement.None? || s.settlement.value.winners == []) then Rejected(Crashed)
    else if roster.None? && id != s.settlement.value.winners[0] then Rejected(InvalidAction)
    else
      var config := Config(if roster.Some? then roster.value else s.config.playerIds, s.config.rules, id);
      if !ConfigFormed(config) then Rejected(InvalidValue)
      else Accepted(NewRound(s, config, IndexOf(config.playerIds, id)), [Note(RoundStarted, id), Note(TurnChanged, id)])
  }

  // deal_cards, with the shuffled deck it draws.
  function DealCards(s: State, id: string, deck: seq<Card>): Outcome {
    if s.status != AwaitingDeal || CurrentId(s) != Some(id) then Rejected(InvalidAction)
    else
      var seat := NextSeat(s.players, s.currentSeat.value);
      if seat.None? then Rejected(InvalidAction)
      else
        var c := s.(stock := deck, status := AwaitingCut, currentSeat := seat);
        Accepted(c, [Note(DealRequested, id), Note(TurnChanged, c.players[seat.value].id)])
  }

  function FirstSeat(s: State): nat
    requires s.config.dealerId in s.config.playerIds && |s.players| > 0
  {
    Around(IndexOf(s.config.playerIds, s.config.dealerId) + 1, |s.players|)
  }

  function Dealt(players: seq<Player>, hands: seq<seq<Card>>, boot: int): (r: seq<Player>)
    requires |hands| == |players|
    ensures |r| == |players|
    ensures forall i :: 0 <= i < |r| ==> r[i] == players[i].(cards := hands[i], contribution := boot)
  {
    seq(|players|, i requires 0 <= i < |players| => players[i].(cards := hands[i], contribution := boot))
  }

  function BootSpecs(players: seq<Player>, boot: int): (r: seq<Spec>)
    ensures |r| == |players| && forall i :: 0 <= i < |r| ==> r[i] == Payment(BootCollected, players[i].id, boot)
  {
    seq(|players|, i requires 0 <= i < |players| => Payment(BootCollected, players[i].id, boot))
  }

  // _complete_deal: three cards each from the dealer's left, the boot from everyone.
  function CompleteDeal(s: State, id: string, position: Option<int>): Outcome {
    if s.status != AwaitingCut || CurrentId(s) != Some(id) then Rejected(InvalidAction)
    else if position.Some? && !(0 <= position.value <= |s.stock|) then Rejected(Crashed)
    else
      var n := |s.players|;
      var deck := if position.Some? then Cut(s.stock, position.value) else s.stock;
      if s.config.dealerId !in s.config.playerIds || n == 0 || n * 3 > |deck| || n != |s.config.playerIds| then Rejected(Crashed)
      else
        var boot, rules := s.config.rules.bootAmount, s.config.rules;
        var hands := DealtHands(deck, IndexOf(s.config.playerIds, s.config.dealerId) + 1, n, 3);
        var players := Dealt(s.players, hands, boot);
        var c := s.(players := players, stock := deck[n * 3..], status := InProgress, currentSeat := Some(FirstSeat(s)),
                    currentBlindBet := rules.initialBlindBet, currentSeenBet := rules.initialBlindBet * rules.multiplier,
                    pot := boot * n);
        Accepted(c, [Note(if position.None? then CutSkipped else DeckCut, id),
            Spec(CardsDealt, None, 0, [], [], None, None)]
                    + (if boot != 0 then BootSpecs(players, boot) else [])
                    + [Note(TurnChanged, players[FirstSeat(s)].id)])
  }

  function CutDeck(s: State, id: string, position: int): Outcome {
    if !(1 <= position < 52) then Rejected(InvalidAction) else CompleteDeal(s, id, Some(position))
  }

  // ---- betting

  // The state with a player replaced and the turn passed on.
  function Passed(c: State, specs: seq<Spec>): Outcome {
    if c.currentSeat.None? then Rejected(Crashed)
    else
      var next := NextSeat(c.players, c.currentSeat.value);
      if next.None? then Rejected(InvalidAction)
      else Accepted(c.(currentSeat := next), specs + [Note(TurnChanged, c.players[next.value].id)])
  }

  function SeenMinimum(s: State, p: Player, amount: int): int {
    if p.visibility == Seen then amount else amount * s.config.rules.multiplier
  }

  function Betted(p: Player, amount: int): Player {
    p.(contribution := p.contribution + amount, turnBets := p.turnBets + 1,
       blindBets := p.blindBets + if p.visibility == Blind then 1 else 0)
  }

  function Bet(s: State, id: string, amount: int): Outcome {
    match RequireTurn(s, id)
    case NoTurn(error) => Rejected(error)
    case Turn(seat) =>
      var p := s.players[seat];
      if amount < RequiredBet(s, p) then Rejected(InvalidAction)
      else if s.config.rules.multiplier < 1 then Rejected(Crashed)
      else
        var seen := SeenMinimum(s, p, amount);
        Passed(s.(players := WithPlayer(s.players, Betted(p, amount)), pot := s.pot + amount, currentSeenBet := seen,
                  currentBlindBet := BlindFor(seen, s.config.rules.multiplier)),
               [Payment(BetPlaced, id, amount)])
  }

  function See(s: State, id: string): Outcome {
    match RequireTurn(s, id)
    case NoTurn(error) => Rejected(error)
    case Turn(seat) =>
      if SeeBlock(s, id).Some? then Rejected(SeeBlock(s, id).value)
      else Accepted(s.(players := WithPlayer(s.players, s.players[seat].(visibility := Seen))), [Note(CardsSeen, id)])
  }

  function Fold(s: State, id: string): Outcome {
    if s.pendingShow.Some? then RespondShow(s, id, false)
    else
      match RequireTurn(s, id)
      case NoTurn(error) => Rejected(error)
      case Turn(seat) =>
        var c := s.(players := WithPlayer(s.players, s.players[seat].(status := Folded)));
        if |Actives(c.players)| == 1 then Finish(Settle(c, None), [Note(PlayerFolded, id)])
        else Passed(c, [Note(PlayerFolded, id)])
  }

  // Does this departure end the pending side-show?
  predicate Interrupts(s: State, c: State, id: string) {
    s.pendingSideShow.Some? &&
    (id == s.pendingSideShow.value.requester || id == s.pendingSideShow.value.target || |Actives(c.players)| < 3)
  }

  function DeclinedSpec(r: SideShowRequest): Spec {
    Spec(SideShowDeclined, Some(r.requester), 0, [], [], Some(r.target), None)
  }

  function FoldForLeave(s: State, id: string): Outcome {
    var seat := SeatOf(s.players, id);
    if seat.None? then Rejected(InvalidAction)
    else if s.status != InProgress || !IsActive(s.players[seat.value]) then Rejected(InvalidAction)
    else
      var folded := s.(players := WithPlayer(s.players, s.players[seat.value].(status := Folded)));
      var ended := Interrupts(s, folded, id);
      if ended && s.pendingSideShow.value.requester !in s.config.playerIds then Rejected(Crashed)
      else
        var c := if ended then folded.(pendingSideShow := None,
                                       currentSeat := Some(IndexOf(s.config.playerIds,
                                           s.pendingSideShow.value.requester)))
                 else folded;
        var specs := [Note(PlayerFolded, id)] + if ended then [DeclinedSpec(s.pendingSideShow.value)] else [];
        if |Actives(c.players)| == 1 then Finish(Settle(c, None), specs)
        else if CurrentId(s) == Some(id) || ended then Passed(c, specs)
        else Accepted(c, specs)
  }

  // ---- the final show

  // The first active player other than this one.
  function OtherActive(players: seq<Player>, id: string): (r: Option<nat>)
    ensures r.Some? ==> r.value < |players| && IsActive(players[r.value]) && players[r.value].id != id
    ensures r.None? ==> forall i :: 0 <= i < |players| && IsActive(players[i]) ==> players[i].id == id
  {
    if players == [] then None
    else
      var r := OtherActive(players[..|players| - 1], id);
      if r.Some? then r
      else if IsActive(players[|players| - 1]) && players[|players| - 1].id != id then Some(|players| - 1) else None
  }

  function RequestShow(s: State, id: string): Outcome {
    match RequireTurn(s, id)
    case NoTurn(error) => Rejected(error)
    case Turn(seat) =>
      if ShowBlock(s, id).Some? then Rejected(ShowBlock(s, id).value)
      else
        var p := s.players[seat];
        var cost := ShowCost(s, p);
        var players := WithPlayer(s.players, p.(contribution := p.contribution + cost));
        var other := OtherActive(players, id);
        if other.None? || players[other.value].id !in s.config.playerIds then Rejected(Crashed)
        else
          var target := players[other.value].id;
          var shown := [ShownHand(id, p.cards)];
          Accepted(s.(players := players, pot := s.pot + cost, pendingShow := Some(ShowRequest(id, target)),
              revealed := shown,
                      currentSeat := Some(IndexOf(s.config.playerIds, target))),
                   [Spec(ShowRequested, Some(id), cost, [], shown, Some(target), None), Note(TurnChanged, target)])
  }

  // _respond_show: reveal or fold.
  function RespondShow(s: State, id: string, showing: bool): Outcome {
    if s.status != InProgress || s.pendingShow.None? || s.pendingShow.value.target != id then Rejected(InvalidAction)
    else if showing then Finish(Settle(s, Some(s.pendingShow.value.requester)), [])
    else
      var seat := SeatOf(s.players, id);
      var players := if seat.Some? then WithPlayer(s.players, s.players[seat.value].(status := Folded)) else s.players;
      Finish(Settle(s.(players := players), None), [Note(PlayerFolded, id)])
  }

  // ---- side-shows

  function RequestSideShow(s: State, id: string): Outcome {
    match RequireTurn(s, id)
    case NoTurn(error) => Rejected(error)
    case Turn(seat) =>
      if SideShowBlock(s, id).Some? then Rejected(SideShowBlock(s, id).value)
      else
        var p := s.players[seat];
        var amount := RequiredBet(s, p);
        var target := s.players[PreviousSeen(s.players, seat).value].id;
        if target !in s.config.playerIds then Rejected(Crashed)
        else
          var players := WithPlayer(s.players, p.(contribution := p.contribution + amount, turnBets := p.turnBets + 1));
          Accepted(s.(players := players, pot := s.pot + amount,
                      pendingSideShow := Some(SideShowRequest(id, target, s.revision + 1)),
                      currentSeat := Some(IndexOf(s.config.playerIds, target))),
                   [Spec(SideShowRequested, Some(id), amount, [], [], Some(target), None), Note(TurnChanged, target)])
  }

  // _respond_side_show: the loser of an accepted comparison folds, ties against the requester.
  function RespondSideShow(s: State, id: string, accept: bool): Outcome {
    if s.status != InProgress || s.pendingSideShow.None? || s.pendingSideShow.value.target != id then
        Rejected(InvalidAction)
    else
      var r := s.pendingSideShow.value;
      var a, b := SeatOf(s.players, r.requester), SeatOf(s.players, r.target);
      if a.None? || b.None? || r.requester !in s.config.playerIds then Rejected(Crashed)
      else
        var requester, target := s.players[a.value], s.players[b.value];
        var c := s.(pendingSideShow := None, currentSeat := Some(IndexOf(s.config.playerIds, r.requester)));
        if !accept then Passed(c, [DeclinedSpec(r)])
        else
          var comparison := Compare(s.config.rules.acePolicy, requester.cards, target.cards);
          if comparison.None? then Rejected(Crashed)
          else
            var winner, loser := if comparison.value > 0 then requester
                else target, if comparison.value > 0 then target else requester;
            var result := SideShowResult(r.requester, r.target, winner.id, loser.id, requester.cards,
                target.cards, s.revision + 1);
            Passed(c.(sideShows := s.sideShows + [result], players := WithPlayer(s.players, loser.(status := Folded))),
                   [Spec(SideShowResolved, Some(r.requester), 0, [winner.id], [], Some(r.target), Some(loser.id))])
  }

  // ---- all commands

  datatype Action =
    | ActBet(amount: int) | ActSee | ActFold | ActShow | ActReveal | ActStartNextRound | ActDeal
    | ActCut(position: int) | ActSkipCut
    | ActRequestSideShow | ActAcceptSideShow | ActDeclineSideShow

  // apply_action; the deck is what a deal would shuffle.
  function Apply(s: State, id: string, action: Action, deck: seq<Card>): Outcome {
    match action
    case ActBet(amount) => Bet(s, id, amount)
    case ActSee => See(s, id)
    case ActFold => Fold(s, id)
    case ActShow => RequestShow(s, id)
    case ActReveal => RespondShow(s, id, true)
    case ActStartNextRound => PrepareNextRound(s, id, None)
    case ActDeal => DealCards(s, id, deck)
    case ActCut(position) => CutDeck(s, id, position)
    case ActSkipCut => CompleteDeal(s, id, None)
    case ActRequestSideShow => RequestSideShow(s, id)
    case ActAcceptSideShow => RespondSideShow(s, id, true)
    case ActDeclineSideShow => RespondSideShow(s, id, false)
  }

  datatype Command =
    | Start
    | NextRound(id: string, roster: Option<seq<string>>)
    | LeaveTable(id: string)
    | Player(id: string, action: Action, deck: seq<Card>)

  function Decide(s: State, command: Command): Outcome {
    match command
    case Start => StartGame(s)
    case NextRound(id, roster) => PrepareNextRound(s, id, roster)
    case LeaveTable(id) => FoldForLeave(s, id)
    case Player(id, action, deck) => Apply(s, id, action, deck)
  }
}
