// What every reachable Marriage round looks like.
module MarriageRecords {
  import opened Prelude
  import opened Cards
  import opened MarriageCards
  import opened MarriageModels
  import opened MarriageCompletion
  import opened MarriageSolver
  import opened MarriageFinder
  import opened MarriageState
  import opened MarriageAudit
  import opened MarriageInvariant

  // Two to five players, no name twice, one of them to begin.
  lemma RosterMeans(c: Config)
    ensures ConfigFormed(c) <==>
            && |c.playerIds| in {2, 3, 4, 5} && |Elems(c.playerIds)| == |c.playerIds|
            && exists i :: 0 <= i < |c.playerIds| && c.playerIds[i] == c.firstPlayerId
  {
    NoDupSize(c.playerIds);
  }

  ghost function Unfolded(players: seq<PlayerState>): set<nat> {
    set i: nat | i < |players| && !players[i].folded
  }

  lemma {:induction false} ActiveCounted(players: seq<PlayerState>)
    ensures ActiveCount(players) == |Unfolded(players)|
  {
    hide ActiveCount;
    LastCounted(players);
    if players == [] {
      assert Unfolded(players) == {};
    } else {
      var init, last := players[..|players| - 1], |players| - 1;
      ActiveCounted(init);
      if players[last].folded {
        assert Unfolded(players) == Unfolded(init);
      } else {
        assert Unfolded(players) == Unfolded(init) + {last};
      }
    }
  }

  lemma {:induction false} LastCounted(players: seq<PlayerState>)
    ensures players == [] ==> ActiveCount(players) == 0
    ensures players != [] ==>
              ActiveCount(players) ==
              ActiveCount(players[..|players| - 1]) + if players[|players| - 1].folded then 0 else 1
  {
    if |players| > 1 {
      LastCounted(players[1..]);
      assert players[..|players| - 1][1..] == players[1..][..|players| - 2];
    }
  }

  // A round in progress: at least two have not folded, one of them is to move, and
  // nobody has finished or won.
  lemma RoundGoesOn(s: GameState)
    requires Inv(s) && s.status == InProgress
    ensures |Unfolded(s.players)| >= 2 && s.currentSeat.Some? && s.currentSeat.value in Unfolded(s.players)
    ensures s.phase.Some? && s.winner.None? && s.normalFinish.None? && s.winningPair == [] && !s.wonByFold
    ensures forall i :: 0 <= i < |s.players| ==> !s.players[i].finished
  {
    ActiveCounted(s.players);
    hide Conserved, SeatOk, HistoryOk, FinishedOk, ForcedOk, IndicatorSeen, PlayerFormed, ActiveCount;
  }

  // Every player keeps 21 cards, and one more between drawing and discarding; only a
  // fold may leave it at that.
  lemma HandsAreWhole(s: GameState, i: nat)
    requires Inv(s) && s.status != Waiting && i < |s.players|
    ensures var p := s.players[i];
            var drawn := s.currentSeat == Some(i) && s.phase == Some(MustDiscard) && s.normalFinish.None?;
            && (|p.hand| == 21 || |p.hand| == 22)
            && (!p.folded && !s.wonByFold ==> (|p.hand| == 22 <==> drawn))
            && NoDup(p.hand)
  {
    hide Conserved, HistoryOk, FinishedOk, ForcedOk, IndicatorSeen, ActiveOk, RosterOk, TunnelasOk, RouteOk,
      DeclarationMatches;
    assert SeatOk(s, i);
  }

  // Who has qualified has seen the indicator, and has laid down valid melds of cards
  // that are still held; who has not, has laid down none. And there is an indicator
  // exactly when somebody has qualified.
  lemma QualifiedHaveSeen(s: GameState, i: nat)
    requires Inv(s) && s.status != Waiting && i < |s.players|
    ensures var p := s.players[i];
            && (p.hasSeenMaal <==> p.route != Unqualified)
            && (p.route == Unqualified <==> MeldIds(p.shownMelds) == [])
            && (p.route != Unqualified ==> ValidDeclaration(p, p.shownMelds, p.route, s.config.rules, true))
            && (forall c :: c in MeldIds(p.shownMelds) ==> c in p.hand && c in p.committed)
    ensures s.tiplu.Some? <==> exists k :: 0 <= k < |s.players| && s.players[k].hasSeenMaal
  {
    hide Conserved, HistoryOk, FinishedOk, ForcedOk, ActiveOk, RosterOk, ValidDeclaration, MeldIds, NoDup, RouteOk,
      HandSizeOk, TunnelasOk, DeclarationMatches;
    forall k | 0 <= k < |s.players| ensures RouteOk(s.players[k], s.config.rules, s.tiplu) {
      assert SeatOk(s, k);
    }
    RoutesMean(s);
    assert SeatOk(s, i);
    var p := s.players[i];
    forall c | c in MeldIds(p.shownMelds) ensures c in p.hand && c in p.committed {
      assert c in Elems(MeldIds(p.shownMelds));
      assert c in Elems(p.hand);
    }
  }

  lemma RoutesMean(s: GameState)
    requires forall k :: 0 <= k < |s.players| ==> RouteOk(s.players[k], s.config.rules, s.tiplu)
    ensures forall k :: 0 <= k < |s.players| ==>
              var p := s.players[k];
              && (p.hasSeenMaal <==> p.route != Unqualified) && (p.hasSeenMaal ==> s.tiplu.Some?)
              && (p.route == Unqualified <==> MeldIds(p.shownMelds) == [])
              && (p.route != Unqualified ==> ValidDeclaration(p, p.shownMelds, p.route, s.config.rules, true))
  {
    hide ValidDeclaration, MeldIds;
  }

  // Declared Tunnelas are three copies each, of cards still held, none used twice.
  lemma TunnelasAreHeld(s: GameState, i: nat, k: nat)
    requires Inv(s) && s.status != Waiting && i < |s.players| && k < |s.players[i].initialTunnelas|
    ensures var p, meld := s.players[i], s.players[i].initialTunnelas[k];
            && meld.kind == Tunnela && ValidMeld(p, meld, s.config.rules, true)
            && NoDup(MeldIds(p.initialTunnelas))
  {
    hide Conserved, HistoryOk, FinishedOk, ForcedOk, ActiveOk, RosterOk, ValidMeld, MeldIds, NoDup, RouteOk,
      PlayerFormed, IndicatorSeen;
    assert SeatOk(s, i);
    NoDupSize(MeldIds(s.players[i].initialTunnelas));
  }

  // A finished round has one winner, who has not folded: the last one left, or with
  // the finish that is recorded.
  lemma WinnerIsOne(s: GameState, i: nat)
    requires Inv(s) && s.status == Finished && i < |s.players|
    ensures s.currentSeat.Some? && s.currentSeat.value < |s.players|
    ensures var w := s.currentSeat.value;
            && s.winner == Some(s.players[w].id) && !s.players[w].folded
            && (s.players[i].finished <==> i == w)
            && (s.wonByFold ==> Unfolded(s.players) == {w} && s.normalFinish.None? && s.winningPair == [])
            && (!s.wonByFold ==> if s.players[w].route == Normal then s.normalFinish.Some? && s.winningPair == []
                                 else s.normalFinish.None? && ValidEighthPair(s.players[w], s.winningPair))
  {
    ActiveCounted(s.players);
    hide Conserved, SeatOk, HistoryOk, ForcedOk, ActiveOk, IndicatorSeen, PlayerFormed, ActiveCount, ValidEighthPair,
      ValidNormalFinish;
    if s.wonByFold {
      var w := s.currentSeat.value;
      assert w in Unfolded(s.players);
      SubsetFull({w}, Unfolded(s.players));
    }
  }

  // ---- the record of events

  lemma {:induction false} EventsMean(history: seq<Event>, i: nat)
    requires EventsOrdered(history) && i < |history|
    ensures history[i].sequence == i + 1 && history[i].revision >= 1
    ensures i == 0 ==> history[i].revision == 1
    ensures i > 0 ==> history[i].revision == history[i - 1].revision || history[i].revision == history[i - 1].revision + 1
  {
    var before := history[..|history| - 1];
    if i < |before| {
      EventsMean(before, i);
    }
  }

  lemma {:induction false} DrawnMeans(history: seq<Event>)
    ensures DrawStarted(history) <==> exists i :: 0 <= i < |history| && history[i].CardDrawn?
  {
    if history != [] {
      DrawnMeans(history[..|history| - 1]);
    }
  }

  lemma {:induction false} DeclaredMeans(history: seq<Event>, ruleOn: bool, i: nat)
    requires DeclaredBeforeDraw(history, ruleOn) && i < |history| && history[i].TunnelasDeclared?
    ensures ruleOn && forall j :: 0 <= j < i ==> !history[j].CardDrawn?
  {
    var before := history[..|history| - 1];
    if i < |before| {
      DeclaredMeans(before, ruleOn, i);
      assert forall j :: 0 <= j < i ==> before[j] == history[j];
    } else {
      DrawnMeans(before);
    }
  }

  lemma {:induction false} IndicatorsMean(history: seq<Event>, i: nat)
    requires i < |history| && history[i].TipluRevealed?
    ensures history[i].card in Indicators(history)
    ensures forall j :: 0 <= j < |history| && j != i && history[j].TipluRevealed? ==> |Indicators(history)| >= 2
  {
    var before := history[..|history| - 1];
    if i < |before| {
      IndicatorsMean(before, i);
      forall j | 0 <= j < |history| && j != i && history[j].TipluRevealed? ensures |Indicators(history)| >= 2 {
        if j < |before| { assert before[j] == history[j]; } else { SomeIndicator(before, i); }
      }
    } else {
      forall j | 0 <= j < |history| && j != i && history[j].TipluRevealed? ensures |Indicators(history)| >= 2 {
        SomeIndicator(before, j);
      }
    }
  }

  lemma {:induction false} SomeIndicator(history: seq<Event>, i: nat)
    requires i < |history| && history[i].TipluRevealed?
    ensures Indicators(history) != []
  {
    if i < |history| - 1 { SomeIndicator(history[..|history| - 1], i); }
  }

  // Events are numbered from one, their revisions rise by at most one up to the
  // state's, declarations come before the first draw, and at most one indicator was
  // revealed, the one that counts.
  lemma HistoryIsOrdered(s: GameState, i: nat)
    requires Inv(s) && s.status != Waiting && i < |s.history|
    ensures s.history[i].sequence == i + 1 && 1 <= s.history[i].revision
    ensures i > 0 ==> s.history[i].revision - s.history[i - 1].revision <= 1
    ensures i > 0 ==> s.history[i].revision >= s.history[i - 1].revision
    ensures s.history[|s.history| - 1].revision == s.revision
    ensures s.history[i].TunnelasDeclared? ==>
              s.config.rules.scoring.initialTunnelaDeclaration && forall j :: 0 <= j < i ==> !s.history[j].CardDrawn?
    ensures s.history[i].TipluRevealed? ==>
              s.tiplu == Some(s.history[i].card) && forall j :: 0 <= j < |s.history| && j != i ==>
                  !s.history[j].TipluRevealed?
  {
    hide Conserved, SeatOk, FinishedOk, ForcedOk, ActiveOk, IndicatorSeen, EventsOrdered,
      DeclaredBeforeDraw, Indicators;
    EventsMean(s.history, i);
    if s.history[i].TunnelasDeclared? {
      DeclaredMeans(s.history, s.config.rules.scoring.initialTunnelaDeclaration, i);
    }
    if s.history[i].TipluRevealed? { IndicatorsMean(s.history, i); }
  }
}
