// Flush: rules, seats, the state of a table, and the turn and eligibility
// queries on it. Queries answer None when an action is allowed and the kind of
// refusal otherwise; a seat is found by its player's id, and ids are distinct in
// every configuration the constructor lets through. The next seat is the first
// active one going round from a seat.
module FlushModels {
  import opened Prelude
  import opened Cards
  import opened Dealing
  import opened FlushEvaluator

  datatype TiePolicy = RequesterLoses | Split

  datatype Rules = Rules(
    bootAmount: int, initialBlindBet: int, minimumBetRoundsBeforeSideShow: int, multiplier: int,
    minimumBlindRoundsBeforeShow: int, maximumActivePlayersForBlindShow: int,
    allowBlindShow: bool, allowSeenShow: bool, allowSideShow: bool,
    minimumPlayers: int, maximumPlayers: int, acePolicy: AcePolicy, tiePolicy: TiePolicy, showCostMultiplier: int)

  predicate RulesFormed(r: Rules) {
    && r.bootAmount >= 0 && r.minimumBetRoundsBeforeSideShow >= 0 && r.minimumBlindRoundsBeforeShow >= 0
       && r.showCostMultiplier >= 0
    && r.initialBlindBet >= 1 && r.multiplier >= 1 && r.maximumActivePlayersForBlindShow >= 1
    && r.minimumPlayers >= 2 && r.minimumPlayers <= r.maximumPlayers <= 10
    && (r.allowBlindShow ==> r.maximumActivePlayersForBlindShow >= 2)
  }

  datatype Config = Config(playerIds: seq<string>, rules: Rules, dealerId: string)

  // The characters Python counts as white space, by code point.
  predicate IsSpace(c: char) {
    var i := c as int;
    || 9 <= i <= 13 || 28 <= i <= 32 || i == 133 || i == 160 || i == 5760 || 8192 <= i <= 8202
    || i == 8232 || i == 8233 || i == 8239 || i == 8287 || i == 12288
  }

  // Only white space, so empty after strip().
  predicate Blank(id: string) {
    forall i :: 0 <= i < |id| ==> IsSpace(id[i])
  }

  predicate ConfigFormed(c: Config) {
    && RulesFormed(c.rules)
    && (forall i :: 0 <= i < |c.playerIds| ==> !Blank(c.playerIds[i]))
    && NoDup(c.playerIds)
    && c.rules.minimumPlayers <= |c.playerIds| <= c.rules.maximumPlayers
    && c.dealerId in c.playerIds
  }

  datatype Status = Waiting | AwaitingDeal | AwaitingCut | InProgress | Finished
  datatype PlayerStatus = Active | Folded | Out
  datatype Visibility = Blind | Seen

  datatype Player = Player(
    id: string, cards: seq<Card>, status: PlayerStatus, visibility: Visibility,
    contribution: int, blindBets: int, turnBets: int)

  datatype Payout = Payout(id: string, amount: int)
  datatype ShownHand = ShownHand(id: string, cards: seq<Card>)
  datatype Reason = LastPlayerRemaining | ShowReason | ShowFold
  datatype Settlement = Settlement(
    reason: Reason, winners: seq<string>, payouts: seq<Payout>, shown: seq<ShownHand>, hand: Option<HandResult>)
  datatype ShowRequest = ShowRequest(requester: string, target: string)
  datatype SideShowRequest = SideShowRequest(requester: string, target: string, revision: nat)
  datatype SideShowResult = SideShowResult(
    requester: string, target: string, winner: string, loser: string,
    requesterCards: seq<Card>, targetCards: seq<Card>, revision: nat)
  datatype RoundResult = RoundResult(number: nat, winners: seq<string>, netChanges: seq<Payout>)

  datatype Kind =
    | GameStarted | RoundStarted | TurnChanged | DealRequested | CutSkipped | DeckCut | CardsDealt | BootCollected
    | BetPlaced | CardsSeen | PlayerFolded | ShowRequested | SideShowRequested | SideShowDeclined
    | SideShowResolved | RoundFinished

  // What an event says, before it is numbered.
  datatype Spec = Spec(
    kind: Kind, player: Option<string>, amount: int, winners: seq<string>, shown: seq<ShownHand>,
    target: Option<string>, loser: Option<string>)

  datatype Event = Event(sequence: nat, revision: nat, what: Spec)

  function Note(kind: Kind, player: string): Spec {
    Spec(kind, Some(player), 0, [], [], None, None)
  }

  function Payment(kind: Kind, player: string, amount: int): Spec {
    Spec(kind, Some(player), amount, [], [], None, None)
  }

  datatype State = State(
    config: Config, players: seq<Player>, stock: seq<Card>, status: Status, currentSeat: Option<nat>,
    currentBlindBet: int, currentSeenBet: int, pot: int, revision: nat, settlement: Option<Settlement>,
    pendingSideShow: Option<SideShowRequest>, pendingShow: Option<ShowRequest>, revealed: seq<ShownHand>,
    sideShows: seq<SideShowResult>, history: seq<Event>, roundNumber: nat, roundStart: nat, results: seq<RoundResult>)

  function FreshPlayers(ids: seq<string>): (r: seq<Player>)
    ensures |r| == |ids| && forall i :: 0 <= i < |ids| ==> r[i] == Player(ids[i], [], Active, Blind, 0, 0, 0)
  {
    seq(|ids|, i requires 0 <= i < |ids| => Player(ids[i], [], Active, Blind, 0, 0, 0))
  }

  function Fresh(config: Config): State {
    State(config, FreshPlayers(config.playerIds), [], Waiting, None, 0, 0, 0, 0, None, None, None, [], [], [], 1, 1, [])
  }

  // ---- seats

  function SeatOf(players: seq<Player>, id: string): (r: Option<nat>)
    ensures r.Some? ==> r.value < |players| && players[r.value].id == id
    ensures r.None? ==> forall i :: 0 <= i < |players| ==> players[i].id != id
  {
    if players == [] then None
    else
      var r := SeatOf(players[..|players| - 1], id);
      if r.Some? then r else if players[|players| - 1].id == id then Some(|players| - 1) else None
  }

  // Seats hold their configured players.
  predicate Roster(config: Config, players: seq<Player>) {
    |players| == |config.playerIds| && forall i :: 0 <= i < |players| ==> players[i].id == config.playerIds[i]
  }

  lemma DistinctIds(config: Config, players: seq<Player>, a: nat, b: nat)
    requires Roster(config, players) && NoDup(config.playerIds) && a < |players| && b < |players| && a != b
    ensures players[a].id != players[b].id
  {
  }

  lemma SeatIs(config: Config, players: seq<Player>, seat: nat)
    requires Roster(config, players) && NoDup(config.playerIds) && seat < |players|
    ensures SeatOf(players, players[seat].id) == Some(seat)
    ensures players[seat].id in config.playerIds && IndexOf(config.playerIds, players[seat].id) == seat
  {
    hide NoDup;
    var r := SeatOf(players, players[seat].id);
    assert r.Some?;
    if r.value != seat { DistinctIds(config, players, r.value, seat); }
    IndexIs(config.playerIds, seat);
  }

  function CurrentId(s: State): Option<string> {
    if s.currentSeat.Some? && s.currentSeat.value < |s.players| then Some(s.players[s.currentSeat.value].id) else None
  }

  predicate IsActive(p: Player) {
    p.status == Active
  }

  // active_players
  function Actives(players: seq<Player>): (r: seq<Player>)
    ensures forall p :: p in r <==> p in players && IsActive(p)
    ensures |r| <= |players|
  {
    if players == [] then []
    else
      assert players == players[..|players| - 1] + [players[|players| - 1]];
      Actives(players[..|players| - 1]) + if IsActive(players[|players| - 1]) then [players[|players| - 1]] else []
  }

  function Ids(players: seq<Player>): (r: seq<string>)
    ensures |r| == |players| && forall i :: 0 <= i < |r| ==> r[i] == players[i].id
  {
    seq(|players|, i requires 0 <= i < |players| => players[i].id)
  }

  // The first active seat at least offset steps after from.
  function NextFrom(players: seq<Player>, from: nat, offset: nat): (r: Option<nat>)
    requires 1 <= offset <= |players| + 1
    ensures r.Some? ==> r.value < |players| && IsActive(players[r.value])
    decreases |players| + 1 - offset
  {
    if offset > |players| then None
    else
      var seat := Around(from + offset, |players|);
      if IsActive(players[seat]) then Some(seat) else NextFrom(players, from, offset + 1)
  }

  // next_seat; None where it raises.
  function NextSeat(players: seq<Player>, from: nat): (r: Option<nat>)
    ensures r.Some? ==> r.value < |players| && IsActive(players[r.value])
  {
    NextFrom(players, from, 1)
  }

  lemma {:induction false} NextFromFinds(players: seq<Player>, from: nat, offset: nat, k: nat)
    requires 1 <= offset <= k <= |players| && IsActive(players[Around(from + k, |players|)])
    ensures NextFrom(players, from, offset).Some?
    decreases k - offset
  {
    if offset < k { NextFromFinds(players, from, offset + 1, k); }
  }

  // Somebody active means somebody is next.
  lemma NextExists(players: seq<Player>, from: nat, seat: nat)
    requires seat < |players| && IsActive(players[seat]) && from < |players|
    ensures NextSeat(players, from).Some?
  {
    var n := |players|;
    var k := if seat > from then seat - from else seat + n - from;
    NextFromFinds(players, from, 1, k);
  }

  function WithPlayer(players: seq<Player>, p: Player): (r: seq<Player>)
    ensures |r| == |players|
  {
    seq(|players|, i requires 0 <= i < |players| => if players[i].id == p.id then p else players[i])
  }

  lemma WithPlayerIs(config: Config, players: seq<Player>, seat: nat, p: Player)
    requires Roster(config, players) && NoDup(config.playerIds) && seat < |players| && p.id == players[seat].id
    ensures WithPlayer(players, p) == players[seat := p]
  {
  }

  // ---- turns and eligibility

  datatype Error = InvalidAction | InvalidTurn | InvalidValue | InvariantFailure | Crashed
  datatype Turn = NoTurn(error: Error) | Turn(seat: nat)

  // require_turn
  function RequireTurn(s: State, id: string): (r: Turn)
    ensures r.Turn? ==> r.seat < |s.players| && s.players[r.seat].id == id && IsActive(s.players[r.seat])
                        && s.status == InProgress && s.pendingShow.None? && s.pendingSideShow.None?
                           && CurrentId(s) == Some(id)
    ensures r.NoTurn? ==> r.error == InvalidAction || r.error == InvalidTurn
  {
    var seat := SeatOf(s.players, id);
    if seat.None? then NoTurn(InvalidAction)
    else if s.status != InProgress then NoTurn(InvalidAction)
    else if s.pendingShow.Some? then NoTurn(InvalidAction)
    else if s.pendingSideShow.Some? then NoTurn(InvalidAction)
    else if !IsActive(s.players[seat.value]) then NoTurn(InvalidAction)
    else if CurrentId(s) != Some(id) then NoTurn(InvalidTurn)
    else Turn(seat.value)
  }

  function RequiredBet(s: State, p: Player): int {
    if p.visibility == Seen then s.currentSeenBet else s.currentBlindBet
  }

  function ShowCost(s: State, p: Player): int {
    RequiredBet(s, p) * s.config.rules.showCostMultiplier
  }

  // The eligibility functions give None when the action is allowed.
  function SeeBlock(s: State, id: string): (r: Option<Error>)
    ensures r.Some? ==> r.value == InvalidAction || r.value == InvalidTurn
    ensures r.None? ==> RequireTurn(s, id).Turn?
  {
    match RequireTurn(s, id)
    case NoTurn(error) => Some(error)
    case Turn(seat) => if s.players[seat].visibility == Seen then Some(InvalidAction) else None
  }

  function ShowBlock(s: State, id: string): (r: Option<Error>)
    ensures r.Some? ==> r.value == InvalidAction || r.value == InvalidTurn
    ensures r.None? ==> RequireTurn(s, id).Turn?
  {
    match RequireTurn(s, id)
    case NoTurn(error) => Some(error)
    case Turn(seat) =>
      var p, rules := s.players[seat], s.config.rules;
      var count := |Actives(s.players)|;
      if count != 2 then Some(InvalidAction)
      else if p.visibility == Blind then
        if !rules.allowBlindShow || p.blindBets < rules.minimumBlindRoundsBeforeShow
           || count > rules.maximumActivePlayersForBlindShow then Some(InvalidAction)
        else None
      else if !rules.allowSeenShow then Some(InvalidAction)
      else None
  }

  // The nearest earlier seat that is active and has seen its cards.
  function PreviousFrom(players: seq<Player>, index: nat, offset: nat): (r: Option<nat>)
    requires index < |players| && 1 <= offset <= |players|
    ensures r.Some? ==>
              r.value < |players| && r.value != index && IsActive(players[r.value])
                  && players[r.value].visibility == Seen
    decreases |players| - offset
  {
    if offset == |players| then None
    else
      var seat := Around(index + |players| - offset, |players|);
      if IsActive(players[seat]) && players[seat].visibility == Seen then Some(seat)
      else PreviousFrom(players, index, offset + 1)
  }

  // previous_seen_player
  function PreviousSeen(players: seq<Player>, index: nat): (r: Option<nat>)
    requires index < |players|
    ensures r.Some? ==>
              r.value < |players| && r.value != index && IsActive(players[r.value])
                  && players[r.value].visibility == Seen
  {
    PreviousFrom(players, index, 1)
  }

  function SideShowBlock(s: State, id: string): (r: Option<Error>)
    ensures r.Some? ==> r.value == InvalidAction || r.value == InvalidTurn
    ensures r.None? ==> RequireTurn(s, id).Turn?
  {
    match RequireTurn(s, id)
    case NoTurn(error) => Some(error)
    case Turn(seat) =>
      var p := s.players[seat];
      if !s.config.rules.allowSideShow || p.visibility != Seen || p.turnBets < s.config.rules.minimumBetRoundsBeforeSideShow
         || |Actives(s.players)| < 3 || PreviousSeen(s.players, seat).None? then Some(InvalidAction)
      else None
  }
}
