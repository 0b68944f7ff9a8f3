// The commands that keep a round going, and what betting does to the stakes:
// a legal bet never lowers either minimum, and the blind minimum stays the seen
// one divided by the multiplier, rounded up. Seeing one's cards changes no stake.
module FlushBetting {
  import opened Prelude
  import opened Cards
  import opened Dealing
  import opened FlushEvaluator
  import opened FlushModels
  import opened FlushAudit
  import opened FlushSteps
  import opened FlushInvariant

  // Refused as an action or a value, or committed with the invariant intact.
  ghost predicate Keeps(s: State, r: Outcome) {
    match r
    case Rejected(error) => error == InvalidAction || error == InvalidTurn || error == InvalidValue
    case Accepted(candidate, specs) => Inv(Commit(s, candidate, specs))
  }

  // ---- facts an in-round state gives

  lemma InRound(s: State)
    requires Inv(s) && s.status == InProgress
    ensures Roster(s.config, s.players) && NoDup(s.config.playerIds) && 2 <= |s.players| <= 10
            && RulesFormed(s.config.rules)
    ensures s.config.dealerId in s.config.playerIds
    ensures StakesOk(s) && BettingOk(s) && ShowOk(s) && SideShowOk(s) && SideShowsOk(s) && DealtOk(s) && MoneyOk(s)
    ensures forall k :: 0 <= k < |s.players| ==> CountersOk(s.players[k])
    ensures |s.players| == |s.config.playerIds| && 1 <= s.roundStart <= s.revision && HistoryOk(s)
  {
    ConfigDistinct(s.config);
    hide StakesOk, BettingOk, ShowOk, SideShowOk, SideShowsOk, DealtOk, MoneyOk, NoDup, HistoryOk, LedgerOk, CountersOk;
  }

  lemma TurnIs(s: State, id: string)
    requires Inv(s) && RequireTurn(s, id).Turn?
    ensures s.currentSeat == Some(RequireTurn(s, id).seat)
  {
    InRound(s);
    hide Inv, ShowOk, SideShowOk, SideShowsOk, DealtOk, MoneyOk, StakesOk;
    SeatIs(s.config, s.players, s.currentSeat.value);
  }

  lemma OneSeatKept(players: seq<Player>, seat: nat, q: Player)
    requires seat < |players| && SeatKept(players[seat], q)
    requires forall k :: 0 <= k < |players| ==> CountersOk(players[k])
    ensures SeatsKept(players, players[seat := q])
  {
    forall k | 0 <= k < |players| ensures SeatKept(players[k], players[seat := q][k]) {}
  }

  // ---- stakes

  lemma CeilCovers(seen: int, m: int)
    requires m >= 1
    ensures BlindFor(seen, m) * m >= seen
    ensures seen >= 1 ==> BlindFor(seen, m) >= 1
    ensures BlindFor(seen, m) * m < seen + m
  {
    var q, r := (seen + m - 1) / m, (seen + m - 1) % m;
    assert seen + m - 1 == q * m + r;
    if seen >= 1 && q <= 0 {
      MulLe(q, 0, m);
    }
  }

  lemma MulLe(a: int, b: int, m: int)
    requires a <= b && m >= 0
    ensures a * m <= b * m
  {
    assert b * m == a * m + (b - a) * m;
    assert (b - a) * m >= 0;
  }

  lemma CeilGrows(seen: int, more: int, m: int)
    requires m >= 1 && seen <= more
    ensures BlindFor(seen, m) <= BlindFor(more, m)
  {
    CeilCovers(seen, m);
    CeilCovers(more, m);
    var a, b := BlindFor(seen, m), BlindFor(more, m);
    assert (b + 1) * m == b * m + m;
    if a > b { MulLe(b + 1, a, m); }
  }

  // A legal bet never lowers either minimum.
  lemma BetRaises(s: State, p: Player, amount: int)
    requires StakesOk(s) && RulesFormed(s.config.rules) && amount >= RequiredBet(s, p)
    ensures var seen := SeenMinimum(s, p, amount); var m := s.config.rules.multiplier;
            seen >= s.currentSeenBet && BlindFor(seen, m) >= s.currentBlindBet && amount >= 1
  {
    var rules := s.config.rules;
    var m := rules.multiplier;
    MulLe(1, rules.initialBlindBet, m);
    CeilCovers(s.currentSeenBet, m);
    if p.visibility != Seen { MulLe(s.currentBlindBet, amount, m); }
    CeilGrows(s.currentSeenBet, SeenMinimum(s, p, amount), m);
  }

  // ---- betting and seeing

  lemma BetShape(s: State, id: string, amount: int)
    requires Inv(s) && RequireTurn(s, id).Turn?
    ensures var seat := RequireTurn(s, id).seat; var p := s.players[seat]; var r := Bet(s, id, amount);
            if amount < RequiredBet(s, p) then r == Rejected(InvalidAction)
            else
              var players := s.players[seat := Betted(p, amount)];
              var seen := SeenMinimum(s, p, amount);
              && NextSeat(players, seat).Some? && s.config.rules.multiplier >= 1
              && r == Accepted(s.(players := players, pot := s.pot + amount, currentSeenBet := seen,
                                  currentBlindBet := BlindFor(seen, s.config.rules.multiplier),
                                   currentSeat := NextSeat(players, seat)),
                               [Payment(BetPlaced, id, amount)] + [Note(TurnChanged,
                                   players[NextSeat(players, seat).value].id)])
  {
    InRound(s);
    TurnIs(s, id);
    hide Inv, ShowOk, SideShowOk, SideShowsOk, DealtOk, MoneyOk, RequireTurn, BlindFor, NextSeat, CountersOk,
      NoDup, BettingOk, HistoryOk;
    var seat := RequireTurn(s, id).seat;
    var p := s.players[seat];
    WithPlayerIs(s.config, s.players, seat, Betted(p, amount));
    NextExists(s.players[seat := Betted(p, amount)], seat, seat);
  }

  lemma BetKeeps(s: State, id: string, amount: int)
    requires Inv(s)
    ensures Keeps(s, Bet(s, id, amount))
    ensures Bet(s, id, amount).Accepted? <==>
            RequireTurn(s, id).Turn? && amount >= RequiredBet(s, s.players[RequireTurn(s, id).seat])
  {
    hide Inv, RequireTurn, NextSeat, RequiredBet, Betted, BlindFor, SeenMinimum;
    if RequireTurn(s, id).Turn? {
      BetShape(s, id, amount);
      hide Bet;
      if amount >= RequiredBet(s, s.players[RequireTurn(s, id).seat]) {
        BetPlacedKeeps(s, RequireTurn(s, id).seat, amount);
      }
    }
  }

  // The table after a bet, before the turn is announced.
  function AfterBet(s: State, seat: nat, amount: int): State
    requires seat < |s.players| && s.config.rules.multiplier >= 1
  {
    var p := s.players[seat];
    var players := s.players[seat := Betted(p, amount)];
    var seen := SeenMinimum(s, p, amount);
    s.(players := players, pot := s.pot + amount, currentSeenBet := seen,
        currentBlindBet := BlindFor(seen, s.config.rules.multiplier),
       currentSeat := NextSeat(players, seat))
  }

  lemma BetPlacedKeeps(s: State, seat: nat, amount: int)
    requires Inv(s) && s.status == InProgress && s.pendingShow.None? && s.pendingSideShow.None?
             && s.config.rules.multiplier >= 1
    requires seat < |s.players| && IsActive(s.players[seat]) && amount >= RequiredBet(s, s.players[seat])
    requires NextSeat(s.players[seat := Betted(s.players[seat], amount)], seat).Some?
    ensures var c := AfterBet(s, seat, amount);
            Inv(Commit(s, c, [Payment(BetPlaced, s.players[seat].id, amount)] + [Note(TurnChanged,
                c.players[c.currentSeat.value].id)]))
  {
    hide Inv, ShowOk, SideShowOk, SideShowsOk, DealtOk, MoneyOk, NextSeat, NoDup, HistoryOk, BettingOk,
      Actives, BlindFor, RequiredBet, Roster,
      SeatsKept, RulesFormed, SeenMinimum, StakesOk, CountersOk;
    InRound(s);
    var p := s.players[seat];
    var c := AfterBet(s, seat, amount);
    var rest := [Note(TurnChanged, c.players[c.currentSeat.value].id)];
    BetRaises(s, p, amount);
    BettedKept(p, amount);
    OneSeatKept(s.players, seat, Betted(p, amount));
    SeatIs(s.config, s.players, seat);
    Paid1(s, c, Payment(BetPlaced, p.id, amount), rest, seat, amount);
    RaisedOk(s, c);
    QuietRound(s, c, seat);
    InRoundKeeps(s, c, [Payment(BetPlaced, p.id, amount)] + rest, seat, amount);
  }

  lemma BettedKept(p: Player, amount: int)
    requires CountersOk(p) && amount >= 0
    ensures SeatKept(p, Betted(p, amount))
  {
  }

  lemma RaisedOk(s: State, c: State)
    requires StakesOk(s) && c.config == s.config && c.currentSeenBet >= s.currentSeenBet
             && s.config.rules.multiplier >= 1
    requires c.currentBlindBet == BlindFor(c.currentSeenBet, s.config.rules.multiplier)
    ensures StakesOk(c)
  {
  }

  // One payment by one seat.
  lemma Paid1(s: State, c: State, first: Spec, rest: seq<Spec>, seat: nat, amount: int)
    requires seat < |s.players| && s.players[seat].id in s.config.playerIds && |c.players| == |s.players| && amount >= 0
    requires c.pot == s.pot + amount
    requires forall k :: 0 <= k < |s.players| ==>
             c.players[k].contribution == s.players[k].contribution + if k == seat then amount else 0
    requires PayingKind(first.kind) && first.player == Some(s.players[seat].id) && first.amount == amount
             && NoMoney(rest)
    ensures Paying(s, c, [first] + rest, seat, amount)
  {
    forall id ensures PaidBy([first] + rest, id) == if id == s.players[seat].id then amount else 0 {
      OnePayment(first, rest, id);
    }
  }

  lemma Paid0(s: State, c: State, specs: seq<Spec>)
    requires |s.players| > 0 && |c.players| == |s.players| && c.pot == s.pot && NoMoney(specs)
    requires forall k :: 0 <= k < |s.players| ==> c.players[k].contribution == s.players[k].contribution
    ensures Paying(s, c, specs, 0, 0)
  {
    forall id ensures PaidBy(specs, id) == 0 { NoMoneyPaid(specs, id); }
  }

  // Nothing pending before or after, nobody folded, an active seat to move.
  lemma QuietRound(s: State, c: State, seat: nat)
    requires Inv(s) && s.status == InProgress && s.pendingShow.None? && s.pendingSideShow.None?
    requires SameRound(s, c) && SeatsKept(s.players, c.players) && c.pendingShow.None? && c.pendingSideShow.None?
    requires c.revealed == s.revealed && c.sideShows == s.sideShows
    requires forall k :: 0 <= k < |s.players| ==>
             c.players[k].id == s.players[k].id && c.players[k].status == s.players[k].status
    requires c.currentSeat.Some? && c.currentSeat.value < |c.players| && IsActive(c.players[c.currentSeat.value])
    ensures BettingOk(c) && ShowOk(c) && SideShowOk(c) && SideShowsOk(c)
    ensures forall specs :: ShowKnown(Commit(s, c, specs))
  {
    InRound(s);
    ActivesSame(s.players, c.players);
    SideShowsKept(s, c);
    hide Inv, SideShowsOk, DealtOk, MoneyOk, StakesOk, SeatKept, NoDup, HistoryOk;
    assert s.revealed == [];
  }

  lemma SeeKeeps(s: State, id: string)
    requires Inv(s)
    ensures Keeps(s, See(s, id)) && (See(s, id).Accepted? <==> SeeBlock(s, id).None?)
  {
    hide Inv, ShowOk, SideShowOk, SideShowsOk, DealtOk, MoneyOk, RequireTurn, NoDup, HistoryOk, Actives,
      StakesOk, BettingOk, Roster, SeatsKept,
      RulesFormed;
    if RequireTurn(s, id).Turn? && SeeBlock(s, id).None? {
      InRound(s);
      TurnIs(s, id);
      var seat := RequireTurn(s, id).seat;
      var p := s.players[seat];
      WithPlayerIs(s.config, s.players, seat, p.(visibility := Seen));
      var r := See(s, id);
      var c := r.candidate;
      OneSeatKept(s.players, seat, p.(visibility := Seen));
      Paid0(s, c, r.specs);
      StakesCommit(s, c);
      QuietRound(s, c, seat);
      hide SeatKept, CountersOk, See;
      InRoundKeeps(s, c, r.specs, 0, 0);
    }
  }
}
