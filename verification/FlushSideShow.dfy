// Side-shows: a private comparison with the previous seen player, inside a
// round that goes on. Asking pays and passes the turn to the player asked; an
// accepted comparison folds one of the two, and the turn moves past the asker.
module FlushSideShow {
  import opened Prelude
  import opened Cards
  import opened Dealing
  import opened FlushEvaluator
  import opened FlushModels
  import opened FlushAudit
  import opened FlushSteps
  import opened FlushInvariant
  import opened FlushBetting
  import opened FlushSettlement
  import opened FlushShows

  // The state and events of a request.
  function Asking(s: State, seat: nat, other: nat): State
    requires seat < |s.players| && other < |s.players|
  {
    var p := s.players[seat];
    s.(players := s.players[seat := p.(contribution := p.contribution + RequiredBet(s, p), turnBets := p.turnBets + 1)],
       pot := s.pot + RequiredBet(s, p),
       pendingSideShow := Some(SideShowRequest(p.id, s.players[other].id, s.revision + 1)), currentSeat := Some(other))
  }

  function AskingSpec(s: State, seat: nat, other: nat): Spec
    requires seat < |s.players| && other < |s.players|
  {
    var p := s.players[seat];
    Spec(SideShowRequested, Some(p.id), RequiredBet(s, p), [], [], Some(s.players[other].id), None)
  }

  // What an allowed request has found.
  lemma SideShowAllowed(s: State, id: string)
    requires SideShowBlock(s, id).None?
    ensures RequireTurn(s, id).Turn?
    ensures var seat := RequireTurn(s, id).seat;
            && s.config.rules.allowSideShow && s.players[seat].visibility == Seen && |Actives(s.players)| >= 3
            && PreviousSeen(s.players, seat).Some?
  {
    hide RequireTurn, Actives, PreviousSeen;
  }

  lemma RequestShape(s: State, id: string)
    requires Roster(s.config, s.players) && NoDup(s.config.playerIds) && SideShowBlock(s, id).None?
    ensures RequireTurn(s, id).Turn? && PreviousSeen(s.players, RequireTurn(s, id).seat).Some?
    ensures var seat := RequireTurn(s, id).seat; var other := PreviousSeen(s.players, seat).value;
            RequestSideShow(s, id) ==
            Accepted(Asking(s, seat, other), [AskingSpec(s, seat, other)] + [Note(TurnChanged, s.players[other].id)])
  {
    hide RequireTurn, SideShowBlock, PreviousSeen, WithPlayer, RequiredBet, Roster, CurrentId, NoDup, Actives;
    SideShowAllowed(s, id);
    var seat := RequireTurn(s, id).seat;
    var other := PreviousSeen(s.players, seat).value;
    SeatIs(s.config, s.players, other);
    var p := s.players[seat];
    WithPlayerIs(s.config, s.players, seat, p.(contribution := p.contribution + RequiredBet(s, p),
        turnBets := p.turnBets + 1));
  }

  lemma RequestKeeps(s: State, id: string)
    requires Inv(s)
    ensures Keeps(s, RequestSideShow(s, id)) && (RequestSideShow(s, id).Accepted? <==> SideShowBlock(s, id).None?)
  {
    hide Inv, RequireTurn, SideShowBlock, PreviousSeen, WithPlayer, RequiredBet, Commit, Asking, AskingSpec,
      Actives, Roster;
    if SideShowBlock(s, id).None? {
      SideShowAllowed(s, id);
      InRoster(s);
      RequestShape(s, id);
      hide RequestSideShow;
      var seat := RequireTurn(s, id).seat;
      AskingKeeps(s, seat, PreviousSeen(s.players, seat).value);
    }
  }

  lemma AskingKeeps(s: State, seat: nat, other: nat)
    requires Inv(s) && s.status == InProgress && s.pendingShow.None? && s.pendingSideShow.None?
    requires seat < |s.players| && other < |s.players| && seat != other && s.config.rules.allowSideShow
             && |Actives(s.players)| >= 3
    requires IsActive(s.players[seat]) && s.players[seat].visibility == Seen
    requires IsActive(s.players[other]) && s.players[other].visibility == Seen
    ensures Inv(Commit(s, Asking(s, seat, other),
            [AskingSpec(s, seat, other)] + [Note(TurnChanged, s.players[other].id)]))
  {
    hide Inv, Actives, NoDup, SideShowsOk, DealtOk, MoneyOk, HistoryOk, StakesOk, RequiredBet, RulesFormed,
      BettingOk, ShowOk, SideShowOk, CountersOk,
      SeatsKept, Roster;
    InRound(s);
    var p := s.players[seat];
    var c, first := Asking(s, seat, other), AskingSpec(s, seat, other);
    var rest := [Note(TurnChanged, s.players[other].id)];
    CostNonnegative(s, p);
    AskedCounts(p, RequiredBet(s, p));
    OneSeatKept(s.players, seat, c.players[seat]);
    DistinctIds(s.config, s.players, seat, other);
    SeatIs(s.config, s.players, seat);
    SeatIs(s.config, s.players, other);
    ActivesSame(s.players, c.players);
    SideShowsKept(s, c);
    StakesCommit(s, c);
    AskingOk(s, seat, other);
    Paid1(s, c, first, rest, seat, RequiredBet(s, p));
    InRoundKeeps(s, c, [first] + rest, seat, RequiredBet(s, p));
  }

  lemma AskedCounts(p: Player, amount: int)
    requires CountersOk(p) && amount >= 0
    ensures CountersOk(p.(contribution := p.contribution + amount, turnBets := p.turnBets + 1))
  {
  }

  lemma SameSeat(config: Config, players: seq<Player>, a: nat, b: nat)
    requires Roster(config, players) && NoDup(config.playerIds) && a < |players| && b < |players|
             && players[a].id == players[b].id
    ensures a == b
  {
    if a != b { DistinctIds(config, players, a, b); }
  }

  lemma AskingOk(s: State, seat: nat, other: nat)
    requires s.status == InProgress && s.pendingShow.None? && s.pendingSideShow.None? && ShowOk(s) && BettingOk(s)
    requires Roster(s.config, s.players) && NoDup(s.config.playerIds)
    requires seat < |s.players| && other < |s.players| && seat != other && s.config.rules.allowSideShow
    requires |Actives(Asking(s, seat, other).players)| >= 3
    requires IsActive(s.players[seat]) && s.players[seat].visibility == Seen
    requires IsActive(s.players[other]) && s.players[other].visibility == Seen
    requires s.players[seat].id in s.config.playerIds && s.players[other].id in s.config.playerIds
             && s.players[seat].id != s.players[other].id
    ensures BettingOk(Asking(s, seat, other)) && ShowOk(Asking(s, seat, other)) && SideShowOk(Asking(s, seat, other))
  {
    hide Actives, SeatOf, RequiredBet;
    var c := Asking(s, seat, other);
    assert c.revealed == [];
    forall k | 0 <= k < |c.players| && (c.players[k].id == s.players[seat].id || c.players[k].id == s.players[other].id)
      ensures IsActive(c.players[k]) && c.players[k].visibility == Seen
    {
      if c.players[k].id == s.players[seat].id { SameSeat(s.config, s.players, k, seat); }
          else { SameSeat(s.config, s.players, k, other); }
    }
  }

  // ---- the answer

  // A pending side-show names two different active players with three distinct cards each.
  lemma SidePair(s: State)
    requires Inv(s) && s.status == InProgress && s.pendingSideShow.Some?
    ensures var r := s.pendingSideShow.value; var a, b := SeatOf(s.players, r.requester), SeatOf(s.players, r.target);
            && a.Some? && b.Some? && a.value != b.value && IsActive(s.players[a.value]) && IsActive(s.players[b.value])
            && r.requester in s.config.playerIds && IndexOf(s.config.playerIds, r.requester) == a.value
            && Hand(s.players[a.value].cards) && Hand(s.players[b.value].cards) && s.pendingShow.None?
            && |Actives(s.players)| >= 3
  {
    SidePlaces(s);
    hide Inv, SideShowsOk, DealtOk, MoneyOk, StakesOk, HistoryOk, NoDup, Actives, BettingOk, ShowOk,
      CountersOk, RulesFormed;
    InRound(s);
    var r := s.pendingSideShow.value;
    var i, j := IndexOf(s.config.playerIds, r.requester), IndexOf(s.config.playerIds, r.target);
    SeatIs(s.config, s.players, i);
    SeatIs(s.config, s.players, j);
    HandsAreHands(s, i);
    HandsAreHands(s, j);
  }

  predicate AnswersSideShow(s: State, id: string) {
    s.status == InProgress && s.pendingSideShow.Some? && s.pendingSideShow.value.target == id
  }

  lemma RespondSideKeeps(s: State, id: string, accept: bool)
    requires Inv(s)
    ensures Keeps(s, RespondSideShow(s, id, accept))
            && (RespondSideShow(s, id, accept).Accepted? <==> AnswersSideShow(s, id))
  {
    hide Inv, SeatOf, Passed, Compare, WithPlayer, Actives;
    if s.status == InProgress && s.pendingSideShow.Some? && s.pendingSideShow.value.target == id {
      SidePair(s);
      var r := s.pendingSideShow.value;
      var a, b := SeatOf(s.players, r.requester).value, SeatOf(s.players, r.target).value;
      if accept {
        hide Hand, NoDup;
        assert Compare(s.config.rules.acePolicy, s.players[a].cards, s.players[b].cards).Some? by {
          CompareIs(s.config.rules.acePolicy, s.players[a].cards, s.players[b].cards);
        }
        var won := Compare(s.config.rules.acePolicy, s.players[a].cards, s.players[b].cards).value > 0;
        ResolvedKeeps(s, a, b, if won then b else a, if won then a else b);
      } else {
        DeclinedKeeps(s, a);
      }
    }
  }

  lemma DeclinedKeeps(s: State, a: nat)
    requires Inv(s) && s.status == InProgress && s.pendingSideShow.Some? && s.pendingShow.None?
             && a < |s.players| && |Actives(s.players)| >= 3
    ensures var r := Passed(s.(pendingSideShow := None, currentSeat := Some(a)),
            [DeclinedSpec(s.pendingSideShow.value)]);
            Keeps(s, r) && r.Accepted?
  {
    hide Inv, Keeps, Passed, Actives, SideShowsOk, DealtOk, MoneyOk, StakesOk, HistoryOk, NoDup, BettingOk,
      ShowOk, SideShowOk, CountersOk;
    InRound(s);
    AllKept(s);
    hide SeatsKept;
    PassKeeps(s, s.(pendingSideShow := None, currentSeat := Some(a)), a, [DeclinedSpec(s.pendingSideShow.value)]);
  }

  // The comparison's record fits the table once the loser has folded.
  lemma ResolvedOk(s: State, c: State, a: nat, b: nat, loser: nat, result: SideShowResult)
    requires SideShowsOk(s) && SeatsKept(s.players, c.players) && c.sideShows == s.sideShows + [result]
    requires Roster(s.config, s.players) && NoDup(s.config.playerIds) && a < |s.players| && b < |s.players| && a != b
    requires loser == a || loser == b
    requires result.requester == s.players[a].id && result.target == s.players[b].id
             && result.loser == s.players[loser].id
    requires result.winner == s.players[if loser == a then b else a].id
    requires result.requesterCards == s.players[a].cards && result.targetCards == s.players[b].cards
    requires c.players[loser].status == Folded
    ensures SideShowsOk(c)
  {
    hide SeatOf, NoDup, SeatKept;
    SeatIs(s.config, s.players, a);
    SeatIs(s.config, s.players, b);
    DistinctIds(s.config, s.players, a, b);
    CardsKept(s.players, c.players, s.players[a].id);
    CardsKept(s.players, c.players, s.players[b].id);
    hide SeatsKept;
    assert SideShowResultOk(c, result);
    forall i | 0 <= i < |c.sideShows| ensures SideShowResultOk(c, c.sideShows[i]) {
      if i < |s.sideShows| {
        assert c.sideShows[i] == s.sideShows[i];
        ResultKept(s, c, s.sideShows[i]);
      }
    }
  }

  lemma ResolvedKeeps(s: State, a: nat, b: nat, loser: nat, winner: nat)
    requires Inv(s) && s.status == InProgress && s.pendingSideShow.Some? && s.pendingShow.None?
             && |Actives(s.players)| >= 3
    requires a < |s.players| && b < |s.players| && a != b && IsActive(s.players[a]) && IsActive(s.players[b])
    requires (loser == a && winner == b) || (loser == b && winner == a)
    ensures var q := s.players[loser].(status := Folded);
            var result := SideShowResult(s.players[a].id, s.players[b].id, s.players[winner].id, s.players[loser].id,
                                         s.players[a].cards, s.players[b].cards, s.revision + 1);
            var r := Passed(s.(pendingSideShow := None, currentSeat := Some(a),
                sideShows := s.sideShows + [result], players := s.players[loser := q]),
                            [Spec(SideShowResolved, Some(s.players[a].id), 0, [s.players[winner].id], [],
                                Some(s.players[b].id), Some(s.players[loser].id))]);
            WithPlayer(s.players, q) == s.players[loser := q] && Keeps(s, r) && r.Accepted?
  {
    hide Inv, Keeps, Passed, Actives, SideShowsOk, DealtOk, MoneyOk, StakesOk, HistoryOk, NoDup, BettingOk,
      ShowOk, SideShowOk, CountersOk, Roster,
      WithPlayer, SeatsKept;
    InRound(s);
    FoldedSeat(s, loser);
    var q := s.players[loser].(status := Folded);
    var result := SideShowResult(s.players[a].id, s.players[b].id, s.players[winner].id, s.players[loser].id,
                                 s.players[a].cards, s.players[b].cards, s.revision + 1);
    var c := s.(pendingSideShow := None, currentSeat := Some(a), sideShows := s.sideShows + [result],
        players := s.players[loser := q]);
    ResolvedOk(s, c, a, b, loser, result);
    PassKeeps(s, c, a, [Spec(SideShowResolved, Some(s.players[a].id), 0, [s.players[winner].id], [],
        Some(s.players[b].id), Some(s.players[loser].id))]);
  }
}
