// Whose turn it is at a Flush table and what it allows.
module FlushTurns {
  import opened Prelude
  import opened Cards
  import opened Dealing
  import opened FlushEvaluator
  import opened FlushModels
  import opened FlushAudit
  import opened FlushSteps
  import opened FlushInvariant
  import opened FlushBetting
  import opened FlushShows

  // ---- neighbours at the table

  // The first active player going on round the table.
  ghost predicate NextActive(players: seq<Player>, from: nat, to: nat)
    requires from < |players|
  {
    && to < |players| && IsActive(players[to])
    && forall k :: 0 <= k < |players| && IsActive(players[k]) ==>
         Ahead(from, to, |players|) <= Ahead(from, k, |players|)
  }

  lemma {:induction false} NextIsActive(players: seq<Player>, from: nat, offset: nat)
    requires from < |players| && 1 <= offset <= |players|
    requires forall k :: 0 <= k < |players| && IsActive(players[k]) ==> Ahead(from, k, |players|) >= offset
    ensures forall to: nat :: NextFrom(players, from, offset) == Some(to) <==> NextActive(players, from, to)
    decreases |players| - offset
  {
    var seat := Around(from + offset, |players|);
    assert Ahead(from, seat, |players|) == offset;
    forall k | 0 <= k < |players| && Ahead(from, k, |players|) == offset ensures k == seat {}
    if IsActive(players[seat]) {
      forall to: nat | NextActive(players, from, to) ensures to == seat {
        assert Ahead(from, to, |players|) <= Ahead(from, seat, |players|);
      }
    } else if offset < |players| {
      NextIsActive(players, from, offset + 1);
    } else {
      forall k | 0 <= k < |players| ensures !IsActive(players[k]) {}
      assert NextFrom(players, from, offset).None?;
    }
  }

  lemma NextSeatMeans(players: seq<Player>, from: nat, to: nat)
    requires from < |players|
    ensures NextSeat(players, from) == Some(to) <==> NextActive(players, from, to)
  {
    NextIsActive(players, from, 1);
  }

  predicate ActiveSeen(p: Player) {
    IsActive(p) && p.visibility == Seen
  }

  // The last other player before this one who is active and has seen the cards.
  ghost predicate LastSeenBefore(players: seq<Player>, index: nat, to: nat)
    requires index < |players|
  {
    && to < |players| && to != index && ActiveSeen(players[to])
    && forall k :: 0 <= k < |players| && k != index && ActiveSeen(players[k]) ==>
         Ahead(to, index, |players|) <= Ahead(k, index, |players|)
  }

  lemma {:induction false} PreviousIsSeen(players: seq<Player>, index: nat, offset: nat)
    requires index < |players| && 1 <= offset <= |players|
    requires forall k :: 0 <= k < |players| && k != index && ActiveSeen(players[k]) ==>
               Ahead(k, index, |players|) >= offset
    ensures forall to: nat :: PreviousFrom(players, index, offset) == Some(to) <==> LastSeenBefore(players, index, to)
    decreases |players| - offset
  {
    if offset < |players| {
      var seat := Around(index + |players| - offset, |players|);
      assert seat != index && Ahead(seat, index, |players|) == offset;
      forall k | 0 <= k < |players| && Ahead(k, index, |players|) == offset ensures k == seat {}
      if ActiveSeen(players[seat]) {
        forall to: nat | LastSeenBefore(players, index, to) ensures to == seat {
          assert Ahead(to, index, |players|) <= Ahead(seat, index, |players|);
        }
      } else {
        PreviousIsSeen(players, index, offset + 1);
      }
    } else {
      forall k | 0 <= k < |players| && k != index ensures !ActiveSeen(players[k]) {}
      assert PreviousFrom(players, index, offset).None?;
    }
  }

  lemma PreviousMeans(players: seq<Player>, index: nat, to: nat)
    requires index < |players|
    ensures PreviousSeen(players, index) == Some(to) <==> LastSeenBefore(players, index, to)
    ensures PreviousSeen(players, index).Some? <==>
            exists k :: 0 <= k < |players| && k != index && ActiveSeen(players[k])
  {
    PreviousIsSeen(players, index, 1);
    if k :| 0 <= k < |players| && k != index && ActiveSeen(players[k]) {
      if PreviousSeen(players, index).None? { SomeoneSeen(players, index, 1, k); }
    }
  }

  lemma {:induction false} SomeoneSeen(players: seq<Player>, index: nat, offset: nat, k: nat)
    requires index < |players| && 1 <= offset <= |players| && k < |players| && k != index && ActiveSeen(players[k])
    requires offset <= Ahead(k, index, |players|)
    ensures PreviousFrom(players, index, offset).Some?
    decreases |players| - offset
  {
    if offset < |players| && offset < Ahead(k, index, |players|) {
      SomeoneSeen(players, index, offset + 1, k);
    }
  }

  // ---- who is in the round

  ghost function ActiveSeats(players: seq<Player>): set<nat> {
    set k: nat | k < |players| && IsActive(players[k])
  }

  lemma {:induction false} ActivesCount(players: seq<Player>)
    ensures |Actives(players)| == |ActiveSeats(players)|
  {
    hide Actives, IsActive;
    ActivesNext(players);
    if players == [] {
      assert ActiveSeats(players) == {};
    } else {
      var init, last := players[..|players| - 1], |players| - 1;
      ActivesCount(init);
      if IsActive(players[last]) {
        assert ActiveSeats(players) == ActiveSeats(init) + {last};
      } else {
        assert ActiveSeats(players) == ActiveSeats(init);
      }
    }
  }

  lemma ActivesNext(players: seq<Player>)
    ensures players == [] ==> Actives(players) == []
    ensures players != [] ==>
              |Actives(players)| ==
              |Actives(players[..|players| - 1])| + if IsActive(players[|players| - 1]) then 1 else 0
  {
  }

  // ---- what the turn allows

  // It is the turn of this seat's player, and no show is waiting for an answer.
  predicate OnTurn(s: State, id: string) {
    && s.status == InProgress && s.pendingShow.None? && s.pendingSideShow.None?
    && s.currentSeat.Some? && s.currentSeat.value < |s.players| && s.players[s.currentSeat.value].id == id
  }

  lemma OnTurnMeans(s: State, id: string)
    requires Inv(s)
    ensures RequireTurn(s, id).Turn? <==> OnTurn(s, id)
    ensures OnTurn(s, id) ==> RequireTurn(s, id) == Turn(s.currentSeat.value)
    ensures RequireTurn(s, id) == NoTurn(InvalidTurn) <==>
            && s.status == InProgress && s.pendingShow.None? && s.pendingSideShow.None?
            && (exists k :: 0 <= k < |s.players| && s.players[k].id == id && IsActive(s.players[k])) && !OnTurn(s, id)
  {
    hide Inv, RequireTurn, BettingOk, NoDup, Roster;
    if s.status == InProgress {
      InRound(s);
      TurnHolder(s, id);
    } else {
      NoTurnYet(s, id);
    }
  }

  lemma NoTurnYet(s: State, id: string)
    requires s.status != InProgress
    ensures RequireTurn(s, id).NoTurn? && RequireTurn(s, id).error == InvalidAction
  {
  }

  lemma TurnHolder(s: State, id: string)
    requires s.status == InProgress && Roster(s.config, s.players) && NoDup(s.config.playerIds) && BettingOk(s)
    ensures RequireTurn(s, id).Turn? <==> OnTurn(s, id)
    ensures OnTurn(s, id) ==> RequireTurn(s, id) == Turn(s.currentSeat.value)
    ensures RequireTurn(s, id) == NoTurn(InvalidTurn) <==>
            && s.pendingShow.None? && s.pendingSideShow.None?
            && (exists k :: 0 <= k < |s.players| && s.players[k].id == id && IsActive(s.players[k])) && !OnTurn(s, id)
  {
    hide NoDup, Roster, Actives;
    var seat := s.currentSeat.value;
    SeatIs(s.config, s.players, seat);
    var found := SeatOf(s.players, id);
    forall k | 0 <= k < |s.players| && s.players[k].id == id ensures found == Some(k) {
      SeatIs(s.config, s.players, k);
    }
  }

  // Blind cards may be seen on one's turn.
  lemma SeeAllowed(s: State, id: string)
    requires Inv(s)
    ensures SeeBlock(s, id).None? <==> OnTurn(s, id) && s.players[s.currentSeat.value].visibility == Blind
  {
    hide Inv, RequireTurn;
    OnTurnMeans(s, id);
  }

  // A show needs exactly one opponent. A blind player needs enough blind bets and
  // rules that allow a blind show at two players; a seen one, rules that allow his.
  lemma ShowAllowed(s: State, id: string)
    requires Inv(s)
    ensures ShowBlock(s, id).None? <==>
            && OnTurn(s, id) && |ActiveSeats(s.players)| == 2
            && var p, rules := s.players[s.currentSeat.value], s.config.rules;
               if p.visibility == Seen then rules.allowSeenShow
               else rules.allowBlindShow && p.blindBets >= rules.minimumBlindRoundsBeforeShow
  {
    hide Inv, RequireTurn, Actives, ActiveSeats, RulesFormed;
    OnTurnMeans(s, id);
    ActivesCount(s.players);
    if OnTurn(s, id) {
      InRound(s);
      BlindLimit(s.config.rules);
    }
  }

  lemma BlindLimit(r: Rules)
    requires RulesFormed(r)
    ensures r.allowBlindShow ==> r.maximumActivePlayersForBlindShow >= 2
  {
  }

  // A side-show needs at least two opponents, one of them active and seen, a seen
  // requester with enough bets, and rules that allow it.
  lemma SideShowMeans(s: State, id: string)
    requires Inv(s)
    ensures SideShowBlock(s, id).None? <==>
            && OnTurn(s, id) && s.config.rules.allowSideShow && |ActiveSeats(s.players)| >= 3
            && var seat := s.currentSeat.value;
               && s.players[seat].visibility == Seen
               && s.players[seat].turnBets >= s.config.rules.minimumBetRoundsBeforeSideShow
               && exists k :: 0 <= k < |s.players| && k != seat && ActiveSeen(s.players[k])
  {
    hide Inv, RequireTurn, Actives, PreviousSeen, ActiveSeats, ActiveSeen;
    OnTurnMeans(s, id);
    ActivesCount(s.players);
    if OnTurn(s, id) { PreviousMeans(s.players, s.currentSeat.value, 0); }
  }
}
