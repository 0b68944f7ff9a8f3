// What each accepted Flush command changes at the table.
module FlushEffects {
  import opened Prelude
  import opened Cards
  import opened Dealing
  import opened FlushEvaluator
  import opened FlushModels
  import opened FlushAudit
  import opened FlushSteps
  import opened FlushInvariant
  import opened FlushBetting
  import opened FlushSettlement
  import opened FlushShows
  import opened FlushSideShow
  import opened FlushPreparation
  import opened FlushTurns

  // ---- betting

  // What the player must put in to stay: a seen player twice (or so many times) as
  // much as a blind one.
  function Minimum(s: State, visibility: Visibility): int {
    match visibility
    case Seen => s.currentSeenBet
    case Blind => s.currentBlindBet
  }

  // The bettor sets the next minimum: exactly the bet for the players who, like the
  // bettor, have seen their cards or have not; the multiple of a blind bet for those
  // who have seen; for blind players, the least amount whose multiple covers it.
  ghost predicate SetsMinimums(t: State, visibility: Visibility, amount: int) {
    var m := t.config.rules.multiplier;
    && Minimum(t, visibility) == amount
    && (visibility == Blind ==> Minimum(t, Seen) == amount * m)
    && (visibility == Seen ==>
          Minimum(t, Blind) * m >= amount && forall less :: less * m >= amount ==> less >= Minimum(t, Blind))
  }

  lemma BetMeans(s: State, id: string, amount: int)
    requires Inv(s)
    ensures var r := Bet(s, id, amount);
            && (r.Accepted? <==> OnTurn(s, id) && amount >= Minimum(s, s.players[s.currentSeat.value].visibility))
            && (r.Accepted? ==>
                  var seat := s.currentSeat.value;
                  var p, t := s.players[seat], r.candidate;
                  && t.currentSeat.Some? && NextActive(t.players, seat, t.currentSeat.value)
                  && SetsMinimums(t, p.visibility, amount)
                  && t == s.(pot := s.pot + amount, currentSeat := t.currentSeat, currentSeenBet := t.currentSeenBet,
                            currentBlindBet := t.currentBlindBet,
                            players := s.players[seat := p.(contribution := p.contribution + amount,
                              turnBets := p.turnBets + 1,
                              blindBets := if p.visibility == Blind then p.blindBets + 1 else p.blindBets)]))
  {
    hide Inv, RequireTurn, NextSeat, BlindFor, NextActive, ActiveSeats, SetsMinimums;
    OnTurnMeans(s, id);
    if OnTurn(s, id) {
      BetShape(s, id, amount);
      var seat := s.currentSeat.value;
      var p := s.players[seat];
      hide Bet;
      if amount >= Minimum(s, p.visibility) {
        var players := s.players[seat := Betted(p, amount)];
        NextSeatMeans(players, seat, NextSeat(players, seat).value);
        StakesSet(s, Bet(s, id, amount).candidate, p, amount);
      }
    } else {
      BetKeeps(s, id, amount);
    }
  }

  lemma StakesSet(s: State, t: State, p: Player, amount: int)
    requires t.config == s.config && s.config.rules.multiplier >= 1
    requires t.currentSeenBet == SeenMinimum(s, p, amount)
    requires t.currentBlindBet == BlindFor(t.currentSeenBet, s.config.rules.multiplier)
    ensures SetsMinimums(t, p.visibility, amount)
  {
    hide BlindFor;
    var m := s.config.rules.multiplier;
    if p.visibility == Blind {
      ExactCeil(amount, m);
    } else {
      CeilCovers(amount, m);
      forall less | less * m >= amount ensures less >= BlindFor(amount, m) {
        LeastCover(amount, m, less);
      }
    }
  }

  lemma LeastCover(seen: int, m: int, less: int)
    requires m >= 1 && less * m >= seen
    ensures less >= BlindFor(seen, m)
  {
    hide BlindFor;
    CeilCovers(seen, m);
    var b := BlindFor(seen, m);
    assert (b - 1) * m == b * m - m;
    if less < b { MulLe(less, b - 1, m); }
  }

  // Whether the player to move has seen the cards.
  function Terms(s: State): Option<Visibility> {
    if s.currentSeat.Some? && s.currentSeat.value < |s.players| then Some(s.players[s.currentSeat.value].visibility)
    else None
  }

  // So the next player may bet less than the last bettor only on other terms.
  lemma NobodyBetsLess(s: State, id: string, amount: int, next: string, less: int)
    requires Inv(s) && Bet(s, id, amount).Accepted?
    ensures var t := Commit(s, Bet(s, id, amount).candidate, Bet(s, id, amount).specs);
            Bet(t, next, less).Accepted? && Terms(t) == Terms(s) ==> less >= amount
  {
    hide Inv, Bet, NextActive;
    BetMeans(s, id, amount);
    BetKeeps(s, id, amount);
    var t := Commit(s, Bet(s, id, amount).candidate, Bet(s, id, amount).specs);
    BetMeans(t, next, less);
  }

  // Seeing the cards changes only that they have been seen.
  lemma SeeMeans(s: State, id: string)
    requires Inv(s)
    ensures var r := See(s, id);
            && (r.Accepted? <==> OnTurn(s, id) && s.players[s.currentSeat.value].visibility == Blind)
            && (r.Accepted? ==>
                  var seat := s.currentSeat.value;
                  r.candidate == s.(players := s.players[seat := s.players[seat].(visibility := Seen)]))
  {
    hide Inv, RequireTurn, WithPlayer, SeeBlock;
    OnTurnMeans(s, id);
    SeeAllowed(s, id);
    SeeKeeps(s, id);
    if OnTurn(s, id) {
      InRoster(s);
      WithPlayerIs(s.config, s.players, s.currentSeat.value, s.players[s.currentSeat.value].(visibility := Seen));
    }
  }

  // ---- folding

  function FoldedSeats(players: seq<Player>, seat: nat): seq<Player>
    requires seat < |players|
  {
    players[seat := players[seat].(status := Folded)]
  }

  // The only player left takes the whole pot.
  ghost predicate TakenBy(c: State, t: State, winner: nat, reason: Reason, shown: seq<ShownHand>) {
    && winner < |c.players| && t.settlement.Some? && |t.results| == |c.results| + 1
    && var id := c.players[winner].id;
       && t.settlement == Some(Settlement(reason, [id], [Payout(id, c.pot)], shown, None))
       && t == c.(status := Finished, currentSeat := None, pendingShow := None, revealed := shown,
                  settlement := t.settlement, results := t.results)
       && t.results[..|c.results|] == c.results
       && var last := t.results[|c.results|];
          && last.number == c.roundNumber && last.winners == [id] && |last.netChanges| == |c.players|
          && forall i :: 0 <= i < |c.players| ==>
               last.netChanges[i] ==
               Payout(c.players[i].id, (if i == winner then c.pot else 0) - c.players[i].contribution)
  }

  lemma LastTakesAll(c: State, winner: nat, specs: seq<Spec>)
    requires Roster(c.config, c.players) && NoDup(c.config.playerIds) && c.config.dealerId in c.config.playerIds
    requires winner < |c.players| && ActiveSeats(c.players) == {winner}
    ensures var r := Finish(Settle(c, None), specs);
            && r.Accepted?
            && TakenBy(c, r.candidate, winner, if c.pendingShow.Some? then ShowFold else LastPlayerRemaining,
                       if c.pendingShow.Some? then c.revealed else [])
  {
    hide Roster, NoDup, IsActive, Settle, Shares, FromDealersLeft, Actives, ActiveSeats, IndexOf, NetChanges;
    var reason := if c.pendingShow.Some? then ShowFold else LastPlayerRemaining;
    var shown := if c.pendingShow.Some? then c.revealed else [];
    var id := c.players[winner].id;
    SettlesFor(c, winner);
    SeatIs(c.config, c.players, winner);
    SettledIs(c, reason, [id], shown, None);
    hide Settled;
    var d := Settled(c, reason, [id], shown, None).value;
    var settlement := d.settlement.value;
    OneWinner(settlement.winners, id, c.pot);
    assert settlement.payouts == [Payout(id, c.pot)];
    NetOfOne(c, winner);
  }

  lemma SettlesFor(c: State, winner: nat)
    requires winner < |c.players| && ActiveSeats(c.players) == {winner}
    ensures Settle(c, None) == Settled(c, if c.pendingShow.Some? then ShowFold else LastPlayerRemaining,
                                       [c.players[winner].id], if c.pendingShow.Some? then c.revealed else [], None)
  {
    hide Settled, IsActive;
    ActivesCount(c.players);
    var active := Actives(c.players);
    assert winner in ActiveSeats(c.players);
    assert c.players[winner] in active;
    assert active == [c.players[winner]];
    hide Actives;
  }

  lemma OneWinner(winners: seq<string>, id: string, pot: int)
    requires NoDup(winners) && winners != [] && Elems(winners) == Elems([id])
    ensures winners == [id] && Shares(winners, pot) == [Payout(id, pot)]
  {
    assert winners[0] in Elems(winners) && Elems([id]) == {id};
    NoDupSize(winners);
    assert winners == [id];
  }

  lemma NetOfOne(c: State, winner: nat)
    requires Roster(c.config, c.players) && NoDup(c.config.playerIds) && winner < |c.players|
    ensures forall i :: 0 <= i < |c.players| ==>
              NetChanges(c.players, [Payout(c.players[winner].id, c.pot)])[i] ==
              Payout(c.players[i].id, (if i == winner then c.pot else 0) - c.players[i].contribution)
  {
    var payouts := [Payout(c.players[winner].id, c.pot)];
    forall i | 0 <= i < |c.players| ensures PayoutTo(payouts, c.players[i].id) == if i == winner then c.pot else 0 {
      if i != winner { DistinctIds(c.config, c.players, i, winner); }
      assert payouts[..0] == [];
    }
  }

  // The seat's player is out of the round: with one player left the round is over,
  // and otherwise it goes on.
  lemma FoldedLeaves(s: State, seat: nat)
    requires Inv(s) && s.status == InProgress && seat < |s.players| && IsActive(s.players[seat])
    ensures var players := FoldedSeats(s.players, seat);
            && WithPlayer(s.players, s.players[seat].(status := Folded)) == players
            && ActiveSeats(players) == ActiveSeats(s.players) - {seat} && seat in ActiveSeats(s.players)
            && |Actives(players)| == |ActiveSeats(s.players)| - 1 >= 1
  {
    hide Inv, Actives;
    FoldedSeat(s, seat);
    ActivesCount(s.players);
    var players := FoldedSeats(s.players, seat);
    ActivesCount(players);
    assert ActiveSeats(players) == ActiveSeats(s.players) - {seat};
    assert seat in ActiveSeats(s.players);
  }

  lemma FoldMeans(s: State, id: string)
    requires Inv(s) && s.pendingShow.None?
    ensures Fold(s, id).Accepted? <==> OnTurn(s, id)
    ensures OnTurn(s, id) && Fold(s, id).Accepted? ==>
              var seat, t := s.currentSeat.value, Fold(s, id).candidate;
              var c := s.(players := FoldedSeats(s.players, seat));
              if |ActiveSeats(s.players)| == 2 then
                exists winner: nat ::
                  ActiveSeats(s.players) == {seat, winner} && TakenBy(c, t, winner, LastPlayerRemaining, [])
              else
                && t.currentSeat.Some? && t.currentSeat.value < |s.players|
                && t == c.(currentSeat := t.currentSeat) && NextActive(c.players, seat, t.currentSeat.value)
  {
    hide Inv, RequireTurn, WithPlayer, Actives, ActiveSeats, NextSeat, NextActive, Settle, Finish, TakenBy,
      NoDup, Roster;
    OnTurnMeans(s, id);
    FoldKeeps(s, id);
    if OnTurn(s, id) {
      var seat := s.currentSeat.value;
      FoldedLeaves(s, seat);
      var c := s.(players := FoldedSeats(s.players, seat));
      if |ActiveSeats(s.players)| == 2 {
        var winner := OtherSeat(s.players, seat);
        InRound(s);
        LastTakesAll(c, winner, [Note(PlayerFolded, id)]) by { RosterFolded(s, seat); }
      } else {
        var next := NextSeat(c.players, seat);
        if next.Some? { NextSeatMeans(c.players, seat, next.value); }
      }
    }
  }

  lemma RosterFolded(s: State, seat: nat)
    requires Roster(s.config, s.players) && seat < |s.players|
    ensures Roster(s.config, FoldedSeats(s.players, seat))
  {
  }

  lemma OtherSeat(players: seq<Player>, seat: nat) returns (other: nat)
    requires seat in ActiveSeats(players) && |ActiveSeats(players)| == 2
    ensures other < |players| && other != seat && ActiveSeats(players) == {seat, other}
    ensures ActiveSeats(players) - {seat} == {other}
  {
    var rest := ActiveSeats(players) - {seat};
    assert |rest| == 1;
    other :| other in rest;
    assert |rest - {other}| == 0;
    assert rest == {other} && ActiveSeats(players) == rest + {seat};
  }

  // ---- leaving

  // The side-show that is waiting cannot take place any more.
  ghost predicate SideShowLost(s: State, seat: nat)
    requires seat < |s.players|
  {
    s.pendingSideShow.Some? &&
    (s.players[seat].id == s.pendingSideShow.value.requester || s.players[seat].id == s.pendingSideShow.value.target
     || |ActiveSeats(s.players)| <= 3)
  }

  // An active player may leave at any time. What waited for an answer is called
  // off: a show is lost by the leaver, a side-show just ends. The turn moves on only
  // when it was the leaver's, or past the requester of a side-show that ended.
  lemma LeaveMeans(s: State, seat: nat)
    requires Inv(s) && s.status == InProgress && seat < |s.players| && IsActive(s.players[seat])
    ensures var r := FoldForLeave(s, s.players[seat].id);
            var c := s.(players := FoldedSeats(s.players, seat));
            && r.Accepted?
            && if |ActiveSeats(s.players)| == 2 then
                 exists winner: nat ::
                   && ActiveSeats(s.players) == {seat, winner}
                   && TakenBy(c, r.candidate, winner, if s.pendingShow.Some? then ShowFold else LastPlayerRemaining,
                              if s.pendingShow.Some? then s.revealed else [])
               else
                 && s.currentSeat.Some? && r.candidate.currentSeat.Some?
                 && var t := r.candidate;
                    && t == c.(pendingSideShow := if SideShowLost(s, seat) then None else s.pendingSideShow,
                               currentSeat := t.currentSeat)
                    && if SideShowLost(s, seat) then
                         && s.pendingSideShow.value.requester in s.config.playerIds
                         && IndexOf(s.config.playerIds, s.pendingSideShow.value.requester) < |t.players|
                         && NextActive(t.players, IndexOf(s.config.playerIds, s.pendingSideShow.value.requester),
                              t.currentSeat.value)
                       else if s.currentSeat == Some(seat) then NextActive(t.players, seat, t.currentSeat.value)
                       else t.currentSeat == s.currentSeat
  {
    hide Inv, RequireTurn, WithPlayer, Actives, ActiveSeats, NextSeat, NextActive, Settle, Finish, TakenBy, NoDup,
      Roster, FoldForLeave, Keeps, ShowOk, SideShowOk, SideShowsOk, DealtOk, MoneyOk, StakesOk, BettingOk, HistoryOk;
    InRound(s);
    SeatIs(s.config, s.players, seat);
    LeaveShape(s, seat);
    LeaveKeeps(s, s.players[seat].id);
    FoldedLeaves(s, seat);
    TurnIsSeat(s, seat);
    var c := s.(players := FoldedSeats(s.players, seat));
    assert c == FoldedAt(s, seat);
    assert Interrupts(s, c, s.players[seat].id) <==> SideShowLost(s, seat);
    if |ActiveSeats(s.players)| == 2 {
      var winner := OtherSeat(s.players, seat);
      RosterFolded(s, seat);
      NoSideShowOfTwo(s);
      LastTakesAll(c, winner, LeftSpecs(s, seat));
    } else {
      var r := FoldForLeave(s, s.players[seat].id);
      if SideShowLost(s, seat) {
        var asker := IndexOf(s.config.playerIds, s.pendingSideShow.value.requester);
        PassedOn(s, Left(s, seat), LeftSpecs(s, seat), asker);
      } else if s.currentSeat == Some(seat) {
        PassedOn(s, Left(s, seat), LeftSpecs(s, seat), seat);
      }
    }
  }

  // The turn is passed to the next active player.
  lemma PassedOn(s: State, c: State, specs: seq<Spec>, from: nat)
    requires c.currentSeat == Some(from) && from < |c.players|
    ensures var r := Passed(c, specs);
            r.Accepted? ==> r.candidate.currentSeat.Some? && r.candidate == c.(currentSeat := r.candidate.currentSeat)
                            && NextActive(c.players, from, r.candidate.currentSeat.value)
  {
    hide NextActive, NextSeat;
    var next := NextSeat(c.players, from);
    if next.Some? { NextSeatMeans(c.players, from, next.value); }
  }

  // The player to move is found by id.
  lemma TurnIsSeat(s: State, seat: nat)
    requires Inv(s) && s.status == InProgress && seat < |s.players|
    ensures s.currentSeat.Some? && (CurrentId(s) == Some(s.players[seat].id) <==> s.currentSeat == Some(seat))
  {
    InRound(s);
    hide Inv, ShowOk, SideShowOk, SideShowsOk, DealtOk, MoneyOk, StakesOk, HistoryOk, Actives, NoDup, CountersOk;
    SeatIs(s.config, s.players, seat);
    SeatIs(s.config, s.players, s.currentSeat.value);
  }

  lemma NoSideShowOfTwo(s: State)
    requires Inv(s) && s.status == InProgress && |ActiveSeats(s.players)| == 2
    ensures s.pendingSideShow.None?
  {
    ActivesCount(s.players);
    if s.pendingSideShow.Some? { SidePlaces(s); }
  }

  // ---- shows

  // Who may ask for a show.
  ghost predicate MayShow(s: State, id: string) {
    && OnTurn(s, id) && |ActiveSeats(s.players)| == 2
    && var p, rules := s.players[s.currentSeat.value], s.config.rules;
       if p.visibility == Seen then rules.allowSeenShow
       else rules.allowBlindShow && p.blindBets >= rules.minimumBlindRoundsBeforeShow
  }

  // The requester pays the minimum so many times and lays the hand open; the turn is
  // the only opponent's, who has to answer.
  lemma ShowMeans(s: State, id: string)
    requires Inv(s)
    ensures var r := RequestShow(s, id);
            && (r.Accepted? <==> MayShow(s, id))
            && (r.Accepted? ==>
                  && r.candidate.currentSeat.Some? && r.candidate.currentSeat.value < |s.players|
                  && var seat, other, t := s.currentSeat.value, r.candidate.currentSeat.value, r.candidate;
                     var p := s.players[seat];
                     var cost := Minimum(s, p.visibility) * s.config.rules.showCostMultiplier;
                     && other != seat && ActiveSeats(s.players) == {seat, other}
                     && t == s.(players := s.players[seat := p.(contribution := p.contribution + cost)],
                                pot := s.pot + cost, pendingShow := Some(ShowRequest(id, s.players[other].id)),
                                revealed := [ShownHand(id, p.cards)], currentSeat := Some(other)))
  {
    hide Inv, RequireTurn, ShowBlock, Keeps, Actives, ActiveSeats, ShowTarget;
    OnTurnMeans(s, id);
    ShowAllowed(s, id);
    ShowKeeps(s, id);
    if ShowBlock(s, id).None? {
      ShowShape(s, id);
      var seat, other := s.currentSeat.value, ShowTarget(s, id);
      BothActive(s.players, seat, other) by { TurnActive(s, id); }
    }
  }

  lemma TurnActive(s: State, id: string)
    requires RequireTurn(s, id).Turn?
    ensures IsActive(s.players[RequireTurn(s, id).seat])
  {
  }

  lemma BothActive(players: seq<Player>, seat: nat, other: nat)
    requires seat < |players| && other < |players| && seat != other && |ActiveSeats(players)| == 2
    requires IsActive(players[seat]) && IsActive(players[other])
    ensures ActiveSeats(players) == {seat, other}
  {
    SubsetFull({seat, other}, ActiveSeats(players));
  }

  // Answering a show by folding leaves the pot to the requester.
  lemma ShowFolded(s: State, id: string)
    requires Inv(s) && s.pendingShow.Some?
    ensures var r := Fold(s, id);
            && r == RespondShow(s, id, false)
            && (r.Accepted? <==> s.status == InProgress && id == s.pendingShow.value.target)
            && (r.Accepted? ==>
                  && s.currentSeat.Some? && s.currentSeat.value < |s.players|
                  && var seat := s.currentSeat.value;
                     && s.players[seat].id == id
                     && exists winner: nat ::
                          && winner < |s.players| && s.players[winner].id == s.pendingShow.value.requester
                          && TakenBy(s.(players := FoldedSeats(s.players, seat)), r.candidate, winner,
                             ShowFold, s.revealed))
  {
    hide Inv, Actives, ActiveSeats, Settle, Finish, TakenBy, WithPlayer, NoDup, Roster;
    FoldKeeps(s, id);
    if AnswersShow(s, id) {
      var seat := ShowTargetSeat(s);
      InRound(s);
      SeatIs(s.config, s.players, seat);
      FoldedLeaves(s, seat);
      TurnIsSeat(s, seat);
      ShowIsBetweenTwo(s);
      ActivesCount(s.players);
      var winner := OtherSeat(s.players, seat);
      RequesterOther(s, seat, winner);
      RosterFolded(s, seat);
      LastTakesAll(s.(players := FoldedSeats(s.players, seat)), winner, [Note(PlayerFolded, id)]);
      TargetTurn(s);
    }
  }

  lemma TargetTurn(s: State)
    requires Inv(s) && s.status == InProgress && s.pendingShow.Some?
    ensures CurrentId(s) == Some(s.pendingShow.value.target)
  {
    InRound(s);
    hide Inv, SideShowOk, SideShowsOk, DealtOk, MoneyOk, StakesOk, HistoryOk, Actives, NoDup, CountersOk;
  }

  lemma RequesterOther(s: State, seat: nat, winner: nat)
    requires Inv(s) && s.status == InProgress && s.pendingShow.Some? && seat < |s.players| && winner < |s.players|
    requires s.players[seat].id == s.pendingShow.value.target && ActiveSeats(s.players) == {seat, winner}
             && seat != winner
    ensures s.players[winner].id == s.pendingShow.value.requester
  {
    InRound(s);
    hide Inv, SideShowOk, SideShowsOk, DealtOk, MoneyOk, StakesOk, HistoryOk, Actives, NoDup, CountersOk, ShownOk,
      BettingOk, RulesFormed, Roster;
    ActiveIds(s.config, s.players);
    assert winner in ActiveSeats(s.players);
    assert s.players[winner] in Actives(s.players);
    DistinctIds(s.config, s.players, seat, winner);
    assert s.players[winner].id in Elems(Ids(Actives(s.players)));
  }

  // ---- side-shows

  // The requester pays the minimum and asks the last seen player before; that player
  // has to answer.
  lemma SideShowAsked(s: State, id: string)
    requires Inv(s) && RequestSideShow(s, id).Accepted?
    ensures OnTurn(s, id) && RequestSideShow(s, id).candidate.currentSeat.Some?
    ensures var seat, t := s.currentSeat.value, RequestSideShow(s, id).candidate;
            var p, other := s.players[seat], t.currentSeat.value;
            && LastSeenBefore(s.players, seat, other)
            && t == s.(players := s.players[seat := p.(contribution := p.contribution + s.currentSeenBet,
                         turnBets := p.turnBets + 1)],
                       pot := s.pot + s.currentSeenBet, currentSeat := Some(other),
                       pendingSideShow := Some(SideShowRequest(id, s.players[other].id, s.revision + 1)))
  {
    hide Inv, RequireTurn, Keeps, Actives, ActiveSeats, PreviousSeen, LastSeenBefore, SideShowBlock, Roster, NoDup,
      ActiveSeen, RequestSideShow;
    RequestKeeps(s, id);
    OnTurnMeans(s, id);
    SideShowMeans(s, id);
    InRoster(s);
    RequestShape(s, id);
    var seat := s.currentSeat.value;
    PreviousMeans(s.players, seat, PreviousSeen(s.players, seat).value);
  }

  // Declining only gives the turn to the player after the requester.
  lemma SideShowDeclines(s: State, id: string)
    requires Inv(s)
    ensures var r := RespondSideShow(s, id, false);
            && (r.Accepted? <==> s.status == InProgress && s.pendingSideShow.Some? && id == s.pendingSideShow.value.target)
            && (r.Accepted? ==>
                  && s.pendingSideShow.value.requester in s.config.playerIds && r.candidate.currentSeat.Some?
                  && var asker := IndexOf(s.config.playerIds, s.pendingSideShow.value.requester);
                     && asker < |s.players| && NextActive(s.players, asker, r.candidate.currentSeat.value)
                     && r.candidate == s.(pendingSideShow := None, currentSeat := r.candidate.currentSeat))
  {
    hide Inv, Actives, NextActive, Keeps, Passed, SeatOf, NoDup;
    RespondSideKeeps(s, id, false);
    if AnswersSideShow(s, id) {
      SidePlaces(s);
      InRoster(s);
      var asker := IndexOf(s.config.playerIds, s.pendingSideShow.value.requester);
      PassedOn(s, s.(pendingSideShow := None, currentSeat := Some(asker)),
          [DeclinedSpec(s.pendingSideShow.value)], asker);
    }
  }
}
