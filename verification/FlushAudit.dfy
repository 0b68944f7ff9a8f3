// The audit before every commit: roster, ledger, money against history, public
// cards, pending requests, lifecycle, and the deck. One predicate a block of
// checks, their conjunction, and the same as the method that walks the history
// and adds up contributions. What a player paid in a round is defined by the
// events of that round alone.
module FlushAudit {
  import opened Prelude
  import opened Cards
  import opened Dealing
  import opened FlushEvaluator
  import opened FlushModels

  // ---- money

  function Amounts(payouts: seq<Payout>): (r: seq<int>)
    ensures |r| == |payouts| && forall i :: 0 <= i < |r| ==> r[i] == payouts[i].amount
  {
    seq(|payouts|, i requires 0 <= i < |payouts| => payouts[i].amount)
  }

  function Payees(payouts: seq<Payout>): (r: seq<string>)
    ensures |r| == |payouts| && forall i :: 0 <= i < |r| ==> r[i] == payouts[i].id
  {
    seq(|payouts|, i requires 0 <= i < |payouts| => payouts[i].id)
  }

  function Contributions(players: seq<Player>): (r: seq<int>)
    ensures |r| == |players| && forall i :: 0 <= i < |r| ==> r[i] == players[i].contribution
  {
    seq(|players|, i requires 0 <= i < |players| => players[i].contribution)
  }

  // Looked up in a dictionary built from the payouts.
  function PayoutTo(payouts: seq<Payout>, id: string): int {
    if payouts == [] then 0
    else if payouts[|payouts| - 1].id == id then payouts[|payouts| - 1].amount
    else PayoutTo(payouts[..|payouts| - 1], id)
  }

  function NetChanges(players: seq<Player>, payouts: seq<Payout>): (r: seq<Payout>)
    ensures |r| == |players|
    ensures forall i :: 0 <= i < |r| ==> r[i] == Payout(players[i].id,
            PayoutTo(payouts, players[i].id) - players[i].contribution)
  {
    seq(|players|, i requires 0 <= i < |players| => Payout(players[i].id,
        PayoutTo(payouts, players[i].id) - players[i].contribution))
  }

  predicate Pays(e: Event, start: nat) {
    e.revision >= start &&
    (e.what.kind == BootCollected || e.what.kind == BetPlaced || e.what.kind == ShowRequested
        || e.what.kind == SideShowRequested)
  }

  // What the history since the round began says a player has paid.
  function Paid(history: seq<Event>, start: nat, id: string): int {
    if history == [] then 0
    else
      var last := history[|history| - 1];
      Paid(history[..|history| - 1], start, id) + if Pays(last, start) && last.what.player == Some(id) then
          last.what.amount else 0
  }

  predicate PaymentsOk(s: State) {
    forall i :: 0 <= i < |s.history| && Pays(s.history[i], s.roundStart) ==>
      s.history[i].what.player.Some? && s.history[i].what.player.value in s.config.playerIds
          && s.history[i].what.amount >= 0
  }

  predicate MoneyOk(s: State) {
    && s.pot == Sum(Contributions(s.players))
    && PaymentsOk(s)
    && forall i :: 0 <= i < |s.players| ==> s.players[i].contribution == Paid(s.history, s.roundStart, s.players[i].id)
  }

  predicate CountersOk(p: Player) {
    p.contribution >= 0 && p.blindBets >= 0 && p.turnBets >= 0 && p.blindBets <= p.turnBets
  }

  // ---- the ledger of rounds

  predicate ResultOk(r: RoundResult, number: nat) {
    && r.number == number && r.winners != []
    && (forall i :: 0 <= i < |r.winners| ==> r.winners[i] in Payees(r.netChanges))
    && NoDup(Payees(r.netChanges)) && Sum(Amounts(r.netChanges)) == 0
  }

  predicate LedgerOk(s: State) {
    && s.roundNumber >= 1 && |s.results| == s.roundNumber - (if s.status == Finished then 0 else 1)
    && (forall i :: 0 <= i < |s.results| ==> ResultOk(s.results[i], i + 1))
    && (s.status == Finished ==>
          s.settlement.Some? && s.results[|s.results| - 1].netChanges
              == NetChanges(s.players, s.settlement.value.payouts))
  }

  // ---- shows and side-shows

  function CardsOf(players: seq<Player>, id: string): Option<seq<Card>> {
    var seat := SeatOf(players, id);
    if seat.Some? then Some(players[seat.value].cards) else None
  }

  function Showers(shown: seq<ShownHand>): (r: seq<string>)
    ensures |r| == |shown| && forall i :: 0 <= i < |r| ==> r[i] == shown[i].id
  {
    seq(|shown|, i requires 0 <= i < |shown| => shown[i].id)
  }

  predicate ShownOk(s: State, shown: seq<ShownHand>) {
    forall i :: 0 <= i < |shown| ==> CardsOf(s.players, shown[i].id) == Some(shown[i].cards)
  }

  predicate ShowOk(s: State) {
    && (if s.pendingShow.Some? then
          var r := s.pendingShow.value;
          && s.status == InProgress && s.pendingSideShow.None?
          && {r.requester, r.target} == Elems(Ids(Actives(s.players))) && r.requester != r.target
             && CurrentId(s) == Some(r.target)
          && Showers(s.revealed) == [r.requester]
        else s.status != Finished ==> s.revealed == [])
    && ShownOk(s, s.revealed)
  }

  predicate SideShowOk(s: State) {
    s.pendingSideShow.Some? ==>
      var r := s.pendingSideShow.value;
      && s.status == InProgress && s.config.rules.allowSideShow
      && r.requester != r.target && r.requester in s.config.playerIds && r.target in s.config.playerIds
      && (forall i :: 0 <= i < |s.players| && (s.players[i].id == r.requester || s.players[i].id == r.target) ==>
            IsActive(s.players[i]) && s.players[i].visibility == Seen)
      && |Actives(s.players)| >= 3 && CurrentId(s) == Some(r.target)
  }

  predicate SideShowResultOk(s: State, r: SideShowResult) {
    && r.requester != r.target && {r.winner, r.loser} == {r.requester, r.target}
    && CardsOf(s.players, r.requester) == Some(r.requesterCards) && CardsOf(s.players, r.target) == Some(r.targetCards)
    && SeatOf(s.players, r.loser).Some? && s.players[SeatOf(s.players, r.loser).value].status == Folded
  }

  predicate SideShowsOk(s: State) {
    forall i :: 0 <= i < |s.sideShows| ==> SideShowResultOk(s, s.sideShows[i])
  }

  // ---- lifecycle

  predicate Untouched(p: Player) {
    p.cards == [] && p.contribution == 0 && p.turnBets == 0 && p.visibility == Blind && p.status == Active
  }

  predicate WaitingOk(s: State) {
    && s.stock == [] && (forall i :: 0 <= i < |s.players| ==> Untouched(s.players[i]))
    && s.currentSeat.None? && s.settlement.None? && s.history == [] && s.revision == 0
    && s.sideShows == [] && s.pendingSideShow.None?
  }

  predicate PreparationOk(s: State) {
    && (forall i :: 0 <= i < |s.players| ==> Untouched(s.players[i]))
    && s.config.dealerId in s.config.playerIds && |s.players| > 0
    && (var dealer := IndexOf(s.config.playerIds, s.config.dealerId);
        s.currentSeat == Some(if s.status == AwaitingDeal then dealer else Around(dealer + 1, |s.players|)))
    && s.settlement.None? && s.sideShows == [] && s.pendingSideShow.None?
    && s.currentBlindBet == 0 && s.currentSeenBet == 0
    && (if s.status == AwaitingDeal then s.stock == [] else FullDeck(s.stock))
    && s.revision == s.roundStart + (if s.status == AwaitingDeal then 0 else 1)
    && s.history != [] && s.history[|s.history| - 1].revision == s.revision
  }

  function Hands(players: seq<Player>): (r: seq<seq<Card>>)
    ensures |r| == |players| && forall i :: 0 <= i < |r| ==> r[i] == players[i].cards
  {
    seq(|players|, i requires 0 <= i < |players| => players[i].cards)
  }

  // ceil(seen / multiplier)
  function BlindFor(seen: int, multiplier: int): int
    requires multiplier >= 1
  {
    (seen + multiplier - 1) / multiplier
  }

  predicate DealtOk(s: State) {
    && FullDeck(Flat(Hands(s.players)) + s.stock)
    && (forall i :: 0 <= i < |s.players| ==> |s.players[i].cards| == 3)
  }

  predicate StakesOk(s: State) {
    var rules := s.config.rules;
    && rules.multiplier >= 1
    && s.currentSeenBet >= rules.initialBlindBet * rules.multiplier
    && s.currentBlindBet == BlindFor(s.currentSeenBet, rules.multiplier)
  }

  predicate BettingOk(s: State) {
    && |Actives(s.players)| >= 2 && s.settlement.None?
    && s.currentSeat.Some? && s.currentSeat.value < |s.players| && IsActive(s.players[s.currentSeat.value])
  }

  // The round's last request to show.
  function LastShow(history: seq<Event>, start: nat): Option<Event> {
    if history == [] then None
    else
      var last := history[|history| - 1];
      if last.what.kind == ShowRequested && last.revision >= start then Some(last)
      else LastShow(history[..|history| - 1], start)
  }

  predicate FinishedOk(s: State) {
    && s.currentSeat.None? && s.settlement.Some?
    && var r := s.settlement.value; var active := Ids(Actives(s.players));
    && r.winners != [] && NoDup(r.winners) && Elems(r.winners) <= Elems(active)
    && Payees(r.payouts) == r.winners && (forall i :: 0 <= i < |r.payouts| ==> r.payouts[i].amount >= 0)
    && Sum(Amounts(r.payouts)) == s.pot
    && match r.reason
       case LastPlayerRemaining => |active| == 1 && r.shown == [] && r.hand.None?
       case ShowFold =>
         var request := LastShow(s.history, s.roundStart);
         && request.Some? && |active| == 1
         && (Some(active[0]) == request.value.what.player || Some(active[0]) == request.value.what.target)
         && |r.shown| == 1 && Some(r.shown[0].id) == request.value.what.player && r.hand.None?
       case ShowReason => |active| == 2 && Showers(r.shown) == active && ShownOk(s, r.shown)
  }

  predicate HistoryOk(s: State) {
    && (forall i :: 0 <= i < |s.history| ==> s.history[i].sequence == i + 1)
    && s.history != [] && s.history[|s.history| - 1].revision == s.revision
    && (forall i :: 0 <= i < |s.history| ==> 1 <= s.history[i].revision <= s.revision)
    && forall i :: 0 <= i < |s.history| - 1 ==> s.history[i].revision <= s.history[i + 1].revision
  }

  // validate_game_state; an exception inside the audit counts as a refusal.
  predicate Audit(s: State) {
    && Roster(s.config, s.players)
    && (forall i :: 0 <= i < |s.players| ==> CountersOk(s.players[i]))
    && LedgerOk(s) && MoneyOk(s) && ShowOk(s) && SideShowOk(s) && SideShowsOk(s)
    && match s.status
       case Waiting => WaitingOk(s)
       case AwaitingDeal => PreparationOk(s)
       case AwaitingCut => PreparationOk(s)
       case InProgress => DealtOk(s) && StakesOk(s) && BettingOk(s) && HistoryOk(s)
       case Finished => DealtOk(s) && StakesOk(s) && FinishedOk(s) && HistoryOk(s)
  }

  // ---- the audit's loop over the history

  predicate Tallied(tally: map<string, int>, ids: seq<string>, history: seq<Event>, start: nat) {
    tally.Keys == Elems(ids) && forall id :: id in tally ==> tally[id] == Paid(history, start, id)
  }

  // contributions = dict.fromkeys(ids, 0), then one pass over the history.
  method Tally(ids: seq<string>, history: seq<Event>, start: nat) returns (r: Option<map<string, int>>)
    ensures r.Some? <==> forall i :: 0 <= i < |history| && Pays(history[i], start) ==>
                           history[i].what.player.Some? && history[i].what.player.value in ids
                               && history[i].what.amount >= 0
    ensures r.Some? ==> Tallied(r.value, ids, history, start)
  {
    var tally: map<string, int> := map id | id in ids :: 0;
    assert history[..0] == [];
    for i := 0 to |history|
      invariant Tallied(tally, ids, history[..i], start)
      invariant forall k :: 0 <= k < i && Pays(history[k], start) ==>
                  history[k].what.player.Some? && history[k].what.player.value in ids && history[k].what.amount >= 0
    {
      var e := history[i];
      assert history[..i + 1][..i] == history[..i];
      if Pays(e, start) {
        if e.what.player.None? || e.what.player.value !in tally || e.what.amount < 0 {
          return None;
        }
        tally := tally[e.what.player.value := tally[e.what.player.value] + e.what.amount];
      }
    }
    assert history[..|history|] == history;
    r := Some(tally);
  }

  method ValidateGameState(s: State) returns (ok: bool)
    ensures ok <==> Audit(s)
  {
    hide LedgerOk, ShowOk, SideShowOk, SideShowsOk, WaitingOk, PreparationOk, DealtOk, StakesOk, BettingOk,
      FinishedOk, HistoryOk, Sum;
    if !Roster(s.config, s.players) || !(forall i :: 0 <= i < |s.players| ==> CountersOk(s.players[i]))
       || !LedgerOk(s) || s.pot != Sum(Contributions(s.players)) {
      return false;
    }
    var tally := Tally(s.config.playerIds, s.history, s.roundStart);
    if tally.None? {
      return false;
    }
    for i := 0 to |s.players|
      invariant forall k :: 0 <= k < i ==> s.players[k].contribution == Paid(s.history, s.roundStart, s.players[k].id)
    {
      assert s.players[i].id in Elems(s.config.playerIds);
      if s.players[i].contribution != tally.value[s.players[i].id] {
        return false;
      }
    }
    ok := ShowOk(s) && SideShowOk(s) && SideShowsOk(s)
          && match s.status
             case Waiting => WaitingOk(s)
             case AwaitingDeal => PreparationOk(s)
             case AwaitingCut => PreparationOk(s)
             case InProgress => DealtOk(s) && StakesOk(s) && BettingOk(s) && HistoryOk(s)
             case Finished => DealtOk(s) && StakesOk(s) && FinishedOk(s) && HistoryOk(s);
  }
}
