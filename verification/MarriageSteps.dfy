// The commands of a round as functions of the snapshot. An accepted command
// gives the candidate and its events; Commit adds the revision and history.
module MarriageSteps {
  import opened Prelude
  import opened Cards
  import opened MarriageCards
  import opened MarriageModels
  import opened MarriageCompletion
  import opened MarriageSolver
  import opened MarriageFinder
  import opened MarriageState
  import opened MarriageAudit

  datatype Outcome = Rejected(error: Error) | Accepted(candidate: GameState, events: seq<Event>)

  // A shuffle gives back the same cards in some order.
  ghost predicate Shuffles(shuffle: seq<PhysicalCard> -> seq<PhysicalCard>) {
    forall cards :: multiset(shuffle(cards)) == multiset(cards)
  }

  function Commit(s: GameState, candidate: GameState, events: seq<Event>): GameState {
    candidate.(revision := s.revision + 1, history := s.history + events)
  }

  // ---- eligibility

  // find_player: the first seat with the id.
  function SeatFrom(players: seq<PlayerState>, id: string, i: nat): (r: Option<nat>)
    requires i <= |players|
    ensures r.Some? ==> i <= r.value < |players| && players[r.value].id == id
    ensures r.None? ==> forall j :: i <= j < |players| ==> players[j].id != id
    decreases |players| - i
  {
    if i == |players| then None
    else if players[i].id == id then Some(i)
    else SeatFrom(players, id, i + 1)
  }

  function SeatOf(players: seq<PlayerState>, id: string): (r: Option<nat>)
    ensures r.Some? ==> r.value < |players| && players[r.value].id == id
    ensures r.None? ==> forall j :: 0 <= j < |players| ==> players[j].id != id
  {
    SeatFrom(players, id, 0)
  }

  // Every seat with this id gets the new value; ids are unique in a round.
  function WithPlayer(players: seq<PlayerState>, id: string, p: PlayerState): (r: seq<PlayerState>)
    ensures |r| == |players|
  {
    seq(|players|, i requires 0 <= i < |players| => if players[i].id == id then p else players[i])
  }

  predicate DeclarationsPending(s: GameState) {
    && s.status == InProgress && s.config.rules.scoring.initialTunnelaDeclaration
    && exists i :: 0 <= i < |s.players| && !s.players[i].tunnelaDeclared && !s.players[i].folded
  }

  function CurrentPlayer(s: GameState): Option<string> {
    if s.currentSeat.Some? && s.currentSeat.value < |s.players| then Some(s.players[s.currentSeat.value].id) else None
  }

  datatype Turn = Blocked(error: Error) | Seat(seat: nat)

  function RequireTurn(s: GameState, id: string, phase: TurnPhase, finishing: bool): (r: Turn)
    ensures r.Seat? ==> r.seat < |s.players| && s.players[r.seat].id == id
    ensures r.Seat? ==> s.currentSeat.Some? && s.currentSeat.value < |s.players| && !s.players[r.seat].folded
  {
    var seat := SeatOf(s.players, id);
    if seat.None? || s.status != InProgress || s.players[seat.value].folded || DeclarationsPending(s) then
        Blocked(InvalidAction)
    else if CurrentPlayer(s) != Some(id) then Blocked(InvalidTurn)
    else if s.phase != Some(phase) || (s.mustFinish && !finishing) then Blocked(InvalidAction)
    else Seat(seat.value)
  }

  // turn_block
  predicate TurnBlocked(s: GameState, p: PlayerState) {
    || s.status != InProgress || p.folded || DeclarationsPending(s)
    || CurrentPlayer(s) != Some(p.id) || s.mustFinish
  }

  function SeatAfter(from: nat, k: nat, n: nat): (r: nat)
    requires n > 0
    ensures r < n
  {
    Around(from + k, n)
  }

  // The next seat that has not folded, counting from the one after `from`.
  function NextSeat(players: seq<PlayerState>, from: nat, offset: nat): (r: nat)
    requires from < |players| && 1 <= offset <= |players|
    requires exists k :: offset <= k <= |players| && !players[SeatAfter(from, k, |players|)].folded
    ensures r < |players| && !players[r].folded
    decreases |players| - offset
  {
    if !players[SeatAfter(from, offset, |players|)].folded then SeatAfter(from, offset, |players|)
    else NextSeat(players, from, offset + 1)
  }

  lemma SomeoneNext(players: seq<PlayerState>, from: nat, seat: nat)
    requires from < |players| && seat < |players| && !players[seat].folded
    ensures exists k :: 1 <= k <= |players| && !players[SeatAfter(from, k, |players|)].folded
  {
    var n := |players|;
    var k := if seat > from then seat - from else seat + n - from;
    assert SeatAfter(from, k, n) == seat;
  }

  // ---- start

  // Hands and stock after r full rounds and j more cards, from the deck's end.
  function Dealt(deck: seq<PhysicalCard>, n: nat, r: nat, j: nat): (t: (seq<seq<PhysicalCard>>, seq<PhysicalCard>))
    requires 0 < n <= 5 && r <= HAND_SIZE && j <= n && (r == HAND_SIZE ==> j == 0) && |deck| == 159
    ensures |t.0| == n && |t.1| == |deck| - r * n - j
    ensures forall i :: 0 <= i < n ==> |t.0[i]| == if i < j then r + 1 else r
    decreases r, j
  {
    if r == 0 && j == 0 then (seq(n, _ => []), deck)
    else if j == 0 then Dealt(deck, n, r - 1, n)
    else
      assert r * n <= 20 * 5;
      var (hands, stock) := Dealt(deck, n, r, j - 1);
      (hands[j - 1 := hands[j - 1] + [stock[|stock| - 1]]], stock[..|stock| - 1])
  }

  function StartEvents(config: Config): seq<Event> {
    [GameStarted(1, 1, config.playerIds, HAND_SIZE), TurnChanged(2, 1, config.firstPlayerId, MustDraw)]
  }

  // start_game, up to its validate_initial_state.
  function Start(s: GameState, shuffle: seq<PhysicalCard> -> seq<PhysicalCard>): Outcome
    requires Formed(s)
    requires |shuffle(CreateDeck())| == 159
  {
    if s.status != Waiting then Rejected(InvalidAction)
    else
      var (hands, rest) := Dealt(shuffle(CreateDeck()), |s.config.playerIds|, HAND_SIZE, 0);
      var events := StartEvents(s.config);
      Accepted(GameState(
        s.config,
        seq(|hands|, i requires 0 <= i < |hands| => FreshPlayer(s.config.playerIds[i], hands[i])),
        rest[..|rest| - 1], rest[|rest| - 1..], Some(IndexOf(s.config.playerIds, s.config.firstPlayerId)), Some(MustDraw),
        InProgress, None, false, None, [], 1, events, None, false), events)
  }

  function Fresh(config: Config): GameState {
    GameState(config, seq(|config.playerIds|,
        i requires 0 <= i < |config.playerIds| => FreshPlayer(config.playerIds[i], [])),
              [], [], None, None, Waiting, None, false, None, [], 0, [], None, false)
  }

  // ---- declare_tunnelas

  // The first objection to a list of declared Tunnelas.
  function TunnelaError(p: PlayerState, melds: seq<Meld>, k: nat, rules: Rules): Option<Error>
    requires k <= |melds|
    decreases |melds| - k
  {
    if k == |melds| then None
    else if melds[k].kind != Tunnela || Elems(MeldIds(melds[..k])) * Elems(melds[k].ids) != {} then Some(InvalidAction)
    else if !ValidMeld(p, melds[k], rules, false) then Some(InvalidMeld)
    else TunnelaError(p, melds, k + 1, rules)
  }

  function Declare(s: GameState, id: string, melds: seq<Meld>): Outcome {
    var seat := SeatOf(s.players, id);
    if seat.None? then Rejected(InvalidAction)
    else
      var p := s.players[seat.value];
      if !DeclarationsPending(s) || p.folded || p.tunnelaDeclared then Rejected(InvalidAction)
      else
        var error := TunnelaError(p, melds, 0, s.config.rules);
        if error.Some? then Rejected(error.value)
        else
          Accepted(
            s.(players := WithPlayer(s.players, id, p.(tunnelaDeclared := true, initialTunnelas := melds))),
            [TunnelasDeclared(|s.history| + 1, s.revision + 1, id, IdGroups(melds))])
  }

  // ---- draw_card

  // draw_source_block
  function SourceBlock(s: GameState, p: PlayerState, source: DrawSource): Option<Error> {
    match source
    case Stock => if s.stock == [] && |s.discard| < 2 then Some(NoDrawableCard) else None
    case Discard =>
      if s.discard == [] then Some(NoDrawableCard)
      else if && p.route == DubleeRoute && !s.config.rules.dubleePlayerCanDrawDiscard
              && (!s.config.rules.dubleePlayerCanTakeWinningDiscard
                 || !WinningDiscard(p, s.discard[|s.discard| - 1])) then
        Some(InvalidAction)
      else None
  }

  // The piles after the optional recycling, top card last.
  function Recycled(s: GameState, shuffle: seq<PhysicalCard> -> seq<PhysicalCard>): (seq<PhysicalCard>, seq<PhysicalCard>) {
    if s.stock == [] && s.discard != [] then
      (shuffle(s.discard[..|s.discard| - 1]), s.discard[|s.discard| - 1..])
    else (s.stock, s.discard)
  }

  function Draw(s: GameState, id: string, source: DrawSource, shuffle: seq<PhysicalCard> -> seq<PhysicalCard>): Outcome
    requires forall cards :: |shuffle(cards)| == |cards|
  {
    var turn := RequireTurn(s, id, MustDraw, false);
    if turn.Blocked? then Rejected(turn.error)
    else
      var p := s.players[turn.seat];
      var block := SourceBlock(s, p, source);
      if block.Some? then Rejected(block.value)
      else
        var sequence, revision := |s.history| + 1, s.revision + 1;
        if source == Stock then
          var (stock, discard) := Recycled(s, shuffle);
          var recycling := if s.stock == [] then [DiscardPileRecycled(sequence, revision, |stock|)] else [];
          var card := stock[|stock| - 1];
          Accepted(
            s.(players := WithPlayer(s.players, id, p.(hand := p.hand + [card])),
               stock := stock[..|stock| - 1], discard := discard, phase := Some(MustDiscard), mustFinish := false),
            recycling + [CardDrawn(sequence + |recycling|, revision, id, source, card)])
        else
          var card := s.discard[|s.discard| - 1];
          Accepted(
            s.(players := WithPlayer(s.players, id, p.(hand := p.hand + [card])),
               discard := s.discard[..|s.discard| - 1], phase := Some(MustDiscard),
               mustFinish := p.route == DubleeRoute && !s.config.rules.dubleePlayerCanDrawDiscard),
            [CardDrawn(sequence, revision, id, source, card)])
  }

  // ---- discard_card

  predicate Locked(p: PlayerState, c: CardId) {
    c in p.committed || InInitialTunnela(p, c)
  }

  // discardable_ids
  function DiscardableIds(s: GameState, p: PlayerState): (r: seq<CardId>)
    ensures forall c :: c in r <==>
              !TurnBlocked(s, p) && s.phase == Some(MustDiscard) && c in p.hand && !Locked(p, c)
  {
    if TurnBlocked(s, p) || s.phase != Some(MustDiscard) then []
    else Without(p.hand, p.committed + Elems(MeldIds(p.initialTunnelas)))
  }

  function DiscardCard(s: GameState, id: string, card: CardId): Outcome {
    var turn := RequireTurn(s, id, MustDiscard, false);
    if turn.Blocked? then Rejected(turn.error)
    else
      var p := s.players[turn.seat];
      if card !in DiscardableIds(s, p) then Rejected(InvalidAction)
      else
        var players := WithPlayer(s.players, id, p.(hand := Without(p.hand, {card})));
        SomeoneNext(players, s.currentSeat.value, turn.seat);
        var next := NextSeat(players, s.currentSeat.value, 1);
        var sequence, revision := |s.history| + 1, s.revision + 1;
        Accepted(
          s.(players := players, discard := s.discard + [card], currentSeat := Some(next), phase := Some(MustDraw)),
          [CardDiscarded(sequence, revision, id, card),
              TurnChanged(sequence + 1, revision, players[next].id, MustDraw)])
  }

  // ---- show_initial_melds and show_dublees

  function LastStandard(stock: seq<PhysicalCard>): (r: Option<nat>)
    ensures r.Some? ==> r.value < |stock| && stock[r.value].Standard?
    ensures r.None? <==> forall i :: 0 <= i < |stock| ==> stock[i].Man?
  {
    if stock == [] then None
    else if stock[|stock| - 1].Standard? then Some(|stock| - 1)
    else LastStandard(stock[..|stock| - 1])
  }

  datatype Selection = Unavailable | Selected(tiplu: PhysicalCard, stock: seq<PhysicalCard>,
      discard: seq<PhysicalCard>, recycled: nat)

  // select_tiplu
  function SelectTiplu(stock: seq<PhysicalCard>, discard: seq<PhysicalCard>,
    shuffle: seq<PhysicalCard> -> seq<PhysicalCard>): Selection {
    var refill := LastStandard(stock).None? && |discard| >= 2;
    var older := if refill then shuffle(discard[..|discard| - 1]) else [];
    var pile := older + stock;
    var rest := if refill then discard[|discard| - 1..] else discard;
    var index := LastStandard(pile);
    if index.None? then Unavailable
    else Selected(pile[index.value], pile[..index.value] + pile[index.value + 1..], rest, |older|)
  }

  function ShowSelection(s: GameState, shuffle: seq<PhysicalCard> -> seq<PhysicalCard>): Selection {
    if s.tiplu.Some? then Selected(s.tiplu.value, s.stock, s.discard, 0) else SelectTiplu(s.stock, s.discard, shuffle)
  }

  function ShowEvents(s: GameState, id: string, melds: seq<Meld>, route: Route, selection: Selection): seq<Event>
    requires selection.Selected?
  {
    var sequence, revision := |s.history| + 1, s.revision + 1;
    var recycling := if selection.recycled > 0 then
        [DiscardPileRecycled(sequence, revision, selection.recycled)] else [];
    var shown := recycling + [MeldsShown(sequence + |recycling|, revision, id, route, Kinds(melds), IdGroups(melds))];
    var revealed := if s.tiplu.None? then shown + [TipluRevealed(sequence + |shown|, revision,
        selection.tiplu)] else shown;
    revealed + [PlayerSawMaal(sequence + |revealed|, revision, id)]
  }

  function Show(s: GameState, id: string, melds: seq<Meld>, route: Route,
    shuffle: seq<PhysicalCard> -> seq<PhysicalCard>): Outcome
    requires route != Unqualified
  {
    var turn := RequireTurn(s, id, MustDiscard, false);
    if turn.Blocked? then Rejected(turn.error)
    else
      var p := s.players[turn.seat];
      if p.route != Unqualified then Rejected(InvalidAction)
      else if !ValidDeclaration(p, melds, route, s.config.rules, false) then Rejected(InvalidMeld)
      else
        var selection := ShowSelection(s, shuffle);
        if selection.Unavailable? then Rejected(TipluUnavailable)
        else
          var q := p.(route := route, shownMelds := melds, committed := Elems(MeldIds(melds)), hasSeenMaal := true);
          Accepted(
            s.(players := WithPlayer(s.players, id, q), tiplu := Some(selection.tiplu),
               stock := selection.stock, discard := selection.discard),
            ShowEvents(s, id, melds, route, selection))
  }

  // ---- fold

  function FirstActive(players: seq<PlayerState>): (r: nat)
    requires exists i :: 0 <= i < |players| && !players[i].folded
    ensures r < |players| && !players[r].folded
  {
    if !players[0].folded then 0
    else
      assert exists i :: 0 <= i < |players[1..]| && !players[1..][i].folded by {
        var i :| 0 <= i < |players| && !players[i].folded;
        assert players[1..][i - 1] == players[i];
      }
      1 + FirstActive(players[1..])
  }

  lemma {:induction false} ActiveCountPositive(players: seq<PlayerState>)
    ensures ActiveCount(players) > 0 <==> exists i :: 0 <= i < |players| && !players[i].folded
  {
    if players != [] {
      ActiveCountPositive(players[1..]);
      if ActiveCount(players[1..]) > 0 {
        var i :| 0 <= i < |players[1..]| && !players[1..][i].folded;
        assert !players[i + 1].folded;
      }
      if i :| 0 <= i < |players| && !players[i].folded {
        if i > 0 { assert players[1..][i - 1] == players[i]; }
      }
    }
  }

  function Fold(s: GameState, id: string): Outcome
    requires TurnOk(s) || s.status != InProgress
    requires s.status == InProgress ==> ActiveCount(s.players) >= 2 && RosterOk(s.config, s.players) && ConfigFormed(s.config)
  {
    var seat := SeatOf(s.players, id);
    if seat.None? || s.status != InProgress || s.players[seat.value].folded then Rejected(InvalidAction)
    else
      var p := s.players[seat.value];
      var players := WithPlayer(s.players, id, p.(folded := true));
      OneFewer(s, seat.value);
      ActiveCountPositive(players);
      var sequence, revision := |s.history| + 1, s.revision + 1;
      var folded := PlayerFolded(sequence, revision, id);
      if ActiveCount(players) == 1 then
        var last := FirstActive(players);
        var winner := players[last].(finished := true);
        Accepted(
          s.(players := players[last := winner], status := Finished, winner := Some(winner.id),
              currentSeat := Some(last),
             wonByFold := true, mustFinish := false),
          [folded, PlayerFinished(sequence + 1, revision, winner.id, [], [], [], None)])
      else if CurrentPlayer(s) == Some(id) then
        SomeoneNext(players, s.currentSeat.value, FirstActive(players));
        var next := NextSeat(players, s.currentSeat.value, 1);
        Accepted(
          s.(players := players, currentSeat := Some(next), phase := Some(MustDraw), mustFinish := false),
          [folded, TurnChanged(sequence + 1, revision, players[next].id, MustDraw)])
      else Accepted(s.(players := players), [folded])
  }

  // With unique ids, replacing a player replaces one seat.
  lemma OneSeat(s: GameState, seat: nat, p: PlayerState)
    requires RosterOk(s.config, s.players) && ConfigFormed(s.config) && seat < |s.players|
    ensures WithPlayer(s.players, s.players[seat].id, p) == s.players[seat := p]
  {
    var ids := s.config.playerIds;
    forall i | 0 <= i < |s.players| && i != seat ensures s.players[i].id != s.players[seat].id {
      assert ids[i] != ids[seat];
    }
  }

  lemma {:induction false} ActiveCountUpdate(players: seq<PlayerState>, seat: nat, p: PlayerState)
    requires seat < |players|
    ensures ActiveCount(players[seat := p]) ==
            ActiveCount(players) + (if players[seat].folded then 1 else 0) - (if p.folded then 1 else 0)
  {
    var after := players[seat := p];
    if seat == 0 {
      assert after[1..] == players[1..];
    } else {
      ActiveCountUpdate(players[1..], seat - 1, p);
      assert after[1..] == players[1..][seat - 1 := p];
    }
  }

  lemma OneFewer(s: GameState, seat: nat)
    requires RosterOk(s.config, s.players) && ConfigFormed(s.config) && seat < |s.players| && !s.players[seat].folded
    ensures ActiveCount(WithPlayer(s.players, s.players[seat].id,
            s.players[seat].(folded := true))) == ActiveCount(s.players) - 1
  {
    OneSeat(s, seat, s.players[seat].(folded := true));
    ActiveCountUpdate(s.players, seat, s.players[seat].(folded := true));
  }

  // ---- finish

  predicate SelectionShape(melds: Option<seq<Meld>>, discard: Option<CardId>, pair: Option<seq<CardId>>) {
    pair.None? && (melds.None? <==> discard.None?)
  }

  function FinishWitness(s: GameState, p: PlayerState, melds: Option<seq<Meld>>,
    discard: Option<CardId>): Option<NormalFinish>
    requires PlayerFormed(p) && StandardIndicator(s.tiplu)
  {
    if melds.Some? && discard.Some? then Some(NormalFinish(melds.value, discard.value))
    else FindFinish(p, s.tiplu, s.config.rules)
  }

  function Finish(s: GameState, id: string, melds: Option<seq<Meld>>, discard: Option<CardId>,
    pair: Option<seq<CardId>>): Outcome
    requires Formed(s) && StandardIndicator(s.tiplu)
  {
    var turn := RequireTurn(s, id, MustDiscard, true);
    if turn.Blocked? then Rejected(turn.error)
    else
      var p := s.players[turn.seat];
      if p.route == Normal then
        if !SelectionShape(melds, discard, pair) then Rejected(InvalidAction)
        else
          var w := FinishWitness(s, p, melds, discard);
          if w.None? || !ValidNormalFinish(p, s.tiplu, s.config.rules, w.value) then Rejected(InvalidAction)
          else FinishNormally(s, id, p, w.value)
      else if melds.Some? || discard.Some? then Rejected(InvalidAction)
      else
        var chosen := if pair.Some? then pair.value else EighthPair(p);
        if !ValidEighthPair(p, chosen) then Rejected(InvalidAction)
        else
          Accepted(
            s.(players := WithPlayer(s.players, id, p.(finished := true)), status := Finished, winner := Some(id),
               winningPair := chosen, mustFinish := false),
            [PlayerFinished(|s.history| + 1, s.revision + 1, id, chosen, [], [], None)])
  }

  function FinishNormally(s: GameState, id: string, p: PlayerState, w: NormalFinish): (r: Outcome)
    ensures r.Accepted?
  {
    var sequence, revision := |s.history| + 1, s.revision + 1;
    var q := p.(finished := true, hand := Without(p.hand, {w.discard}));
    Accepted(
      s.(players := WithPlayer(s.players, id, q), status := Finished, winner := Some(id), normalFinish := Some(w),
         discard := s.discard + [w.discard], mustFinish := false),
      [CardDiscarded(sequence, revision, id, w.discard),
       PlayerFinished(sequence + 1, revision, id, [], Kinds(w.melds), IdGroups(w.melds), Some(w.discard))])
  }
}
