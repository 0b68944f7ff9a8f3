// The audit that guards every commit. Each predicate is one block of the
// source's checks; Audit is their conjunction.
module MarriageAudit {
  import opened Prelude
  import opened Cards
  import opened MarriageCards
  import opened MarriageModels
  import opened MarriageCompletion
  import opened MarriageSolver
  import opened MarriageFinder
  import opened MarriageState

  // What the constructors have checked.
  predicate Formed(s: GameState) {
    && ConfigFormed(s.config)
    && forall i :: 0 <= i < |s.players| ==> PlayerFormed(s.players[i])
  }

  predicate RosterOk(config: Config, players: seq<PlayerState>) {
    && |players| == |config.playerIds|
    && forall i :: 0 <= i < |players| ==> players[i].id == config.playerIds[i]
  }

  predicate TurnOk(s: GameState) {
    s.currentSeat.Some? && s.currentSeat.value < |s.players| && s.phase.Some?
  }

  predicate StandardIndicator(tiplu: Option<PhysicalCard>) {
    tiplu.Some? ==> tiplu.value.Standard?
  }

  function ActiveCount(players: seq<PlayerState>): nat {
    if players == [] then 0 else (if players[0].folded then 0 else 1) + ActiveCount(players[1..])
  }

  predicate ActiveOk(s: GameState)
    requires TurnOk(s)
  {
    && !s.wonByFold && !s.players[s.currentSeat.value].folded && ActiveCount(s.players) >= 2
    && s.winner.None? && s.winningPair == [] && s.normalFinish.None?
    && forall i :: 0 <= i < |s.players| ==> !s.players[i].finished
  }

  predicate FinishedOk(s: GameState)
    requires Formed(s) && TurnOk(s) && StandardIndicator(s.tiplu)
  {
    var seat := s.currentSeat.value;
    var winner := s.players[seat];
    && s.winner == Some(winner.id) && (s.wonByFold || s.phase == Some(MustDiscard))
    && (forall i :: 0 <= i < |s.players| ==> (s.players[i].finished <==> i == seat))
    && !s.mustFinish
    && s.history != []
    && var event := s.history[|s.history| - 1];
    && event.PlayerFinished? && event.player == winner.id && event.pair == s.winningPair
    && !winner.folded
    && if s.wonByFold then
         && ActiveCount(s.players) == 1 && s.normalFinish.None? && s.winningPair == []
         && event.kinds == [] && event.groups == [] && event.discard.None?
       else if winner.route == Normal then
         && s.normalFinish.Some? && s.winningPair == [] && s.discard != []
         && var w := s.normalFinish.value;
         && s.discard[|s.discard| - 1] == w.discard
         && var before := winner.(finished := false, hand := winner.hand + [s.discard[|s.discard| - 1]]);
         && ValidNormalFinish(before, s.tiplu, s.config.rules, w)
         && event.kinds == Kinds(w.melds) && event.groups == IdGroups(w.melds) && event.discard == Some(w.discard)
       else
         && s.normalFinish.None? && s.winningPair != [] && ValidEighthPair(winner, s.winningPair)
         && event.kinds == [] && event.groups == [] && event.discard.None?
  }

  predicate ForcedOk(s: GameState)
    requires Formed(s) && TurnOk(s)
  {
    s.mustFinish ==> s.phase == Some(MustDiscard) && EighthPair(s.players[s.currentSeat.value]) != []
  }

  // ---- one seat

  predicate HandSizeOk(p: PlayerState, extra: nat, wonByFold: bool) {
    if p.folded || wonByFold then |p.hand| == 21 || |p.hand| == 22 else |p.hand| == HAND_SIZE + extra
  }

  function Extra(s: GameState, seat: nat): nat {
    if s.currentSeat == Some(seat) && s.phase == Some(MustDiscard) && s.normalFinish.None? then 1 else 0
  }

  function Declarations(history: seq<Event>, id: string): seq<Event> {
    if history == [] then []
    else
      var last := history[|history| - 1];
      Declarations(history[..|history| - 1], id) +
      if last.TunnelasDeclared? && last.player == id then [last] else []
  }

  predicate DeclarationMatches(declarations: seq<Event>, p: PlayerState) {
    && |declarations| == (if p.tunnelaDeclared then 1 else 0)
    && (declarations != [] ==>
          declarations[0].TunnelasDeclared? && declarations[0].groups == IdGroups(p.initialTunnelas))
  }

  predicate TunnelasOk(p: PlayerState, rules: Rules) {
    && |Elems(MeldIds(p.initialTunnelas))| == |MeldIds(p.initialTunnelas)|
    && (MeldIds(p.initialTunnelas) != [] ==> p.tunnelaDeclared)
    && forall k :: 0 <= k < |p.initialTunnelas| ==>
         p.initialTunnelas[k].kind == Tunnela && ValidMeld(p, p.initialTunnelas[k], rules, true)
  }

  predicate RouteOk(p: PlayerState, rules: Rules, tiplu: Option<PhysicalCard>) {
    if p.route == Unqualified then MeldIds(p.shownMelds) == [] && !p.hasSeenMaal
    else
      && MeldIds(p.shownMelds) != [] && p.hasSeenMaal && tiplu.Some?
      && ValidDeclaration(p, p.shownMelds, p.route, rules, true)
  }

  predicate SeatOk(s: GameState, seat: nat)
    requires seat < |s.players|
  {
    var p := s.players[seat];
    && HandSizeOk(p, Extra(s, seat), s.wonByFold)
    && TunnelasOk(p, s.config.rules)
    && DeclarationMatches(Declarations(s.history, p.id), p)
    && PlayerFormed(p)
    && RouteOk(p, s.config.rules, s.tiplu)
  }

  // ---- the history

  function LastRevision(history: seq<Event>): nat {
    if history == [] then 0 else history[|history| - 1].revision
  }

  // Sequences count from 1; a revision repeats or grows by one.
  predicate EventsOrdered(history: seq<Event>) {
    history == [] ||
    (var before, last := history[..|history| - 1], history[|history| - 1];
     && EventsOrdered(before)
     && last.sequence == |history| && last.revision >= 1
     && (last.revision == LastRevision(before) || last.revision == LastRevision(before) + 1))
  }

  predicate DrawStarted(history: seq<Event>) {
    history != [] && (history[|history| - 1].CardDrawn? || DrawStarted(history[..|history| - 1]))
  }

  predicate DeclaredBeforeDraw(history: seq<Event>, ruleOn: bool) {
    history == [] ||
    (var before, last := history[..|history| - 1], history[|history| - 1];
     && DeclaredBeforeDraw(before, ruleOn)
     && (last.TunnelasDeclared? ==> ruleOn && !DrawStarted(before)))
  }

  function Indicators(history: seq<Event>): seq<PhysicalCard> {
    if history == [] then []
    else
      var last := history[|history| - 1];
      Indicators(history[..|history| - 1]) + if last.TipluRevealed? then [last.card] else []
  }

  predicate HistoryOk(s: GameState) {
    && s.revision >= 1 && s.history != []
    && EventsOrdered(s.history)
    && DeclaredBeforeDraw(s.history, s.config.rules.scoring.initialTunnelaDeclaration)
    && LastRevision(s.history) == s.revision
    && var indicators := Indicators(s.history);
    && |indicators| <= 1 && (indicators != [] ==> s.tiplu == Some(indicators[0]))
  }

  predicate IndicatorSeen(s: GameState) {
    s.tiplu.Some? ==> exists i :: 0 <= i < |s.players| && s.players[i].hasSeenMaal
  }

  // validate_initial_state
  predicate StartupPlayer(p: PlayerState) {
    && p.route == Unqualified && p.shownMelds == [] && !p.tunnelaDeclared && p.initialTunnelas == []
    && p.committed == {} && !p.hasSeenMaal && !p.finished && !p.folded
  }

  predicate InitialOk(s: GameState) {
    && RosterOk(s.config, s.players)
    && (forall i :: 0 <= i < |s.players| ==> StartupPlayer(s.players[i]))
    && s.tiplu.None? && s.winner.None? && s.winningPair == [] && s.normalFinish.None? && !s.wonByFold && !s.mustFinish
    && if s.status == Waiting then
         && s.stock == [] && s.discard == [] && (forall i :: 0 <= i < |s.players| ==> s.players[i].hand == [])
         && s.currentSeat.None? && s.phase.None? && s.revision == 0 && s.history == []
       else
         && s.status == InProgress && |s.discard| == 1
         && s.currentSeat.Some? && s.currentSeat.value < |s.players|
         && s.players[s.currentSeat.value].id == s.config.firstPlayerId && s.phase == Some(MustDraw)
         && (forall i :: 0 <= i < |s.players| ==> |s.players[i].hand| == HAND_SIZE)
         && Conserved(s.players, s.stock, s.discard, s.tiplu)
         && s.revision == 1
         && s.history == [GameStarted(1, 1, s.config.playerIds, HAND_SIZE),
            TurnChanged(2, 1, s.config.firstPlayerId, MustDraw)]
  }

  // validate_game_state
  predicate Audit(s: GameState)
    requires Formed(s)
  {
    if s.status == Waiting then InitialOk(s)
    else
      && RosterOk(s.config, s.players)
      && TurnOk(s)
      && StandardIndicator(s.tiplu)
      && Conserved(s.players, s.stock, s.discard, s.tiplu)
      && (if s.status == InProgress then ActiveOk(s) else FinishedOk(s))
      && ForcedOk(s)
      && (forall seat :: 0 <= seat < |s.players| ==> SeatOk(s, seat))
      && IndicatorSeen(s)
      && HistoryOk(s)
  }

  // ---- validate_game_state step by step: one pass over the history

  method CheckHistory(s: GameState) returns (ok: bool)
    ensures ok <==> HistoryOk(s)
  {
    if s.revision < 1 || s.history == [] {
      return false;
    }
    var ruleOn := s.config.rules.scoring.initialTunnelaDeclaration;
    var previousRevision, drawStarted, indicators := 0, false, [];
    for i := 0 to |s.history|
      invariant EventsOrdered(s.history[..i]) && DeclaredBeforeDraw(s.history[..i], ruleOn)
      invariant previousRevision == LastRevision(s.history[..i])
      invariant drawStarted <==> DrawStarted(s.history[..i])
      invariant indicators == Indicators(s.history[..i])
    {
      var event := s.history[i];
      assert s.history[..i + 1] == s.history[..i] + [event];
      HistoryNext(s.history[..i], event, ruleOn);
      if event.CardDrawn? {
        drawStarted := true;
      }
      if event.TunnelasDeclared? && (!ruleOn || drawStarted) {
        HistoryPrefix(s.history, i + 1, ruleOn);
        return false;
      }
      if event.sequence != i + 1 || (event.revision != previousRevision && event.revision != previousRevision + 1)
         || event.revision < 1 {
        HistoryPrefix(s.history, i + 1, ruleOn);
        return false;
      }
      previousRevision := event.revision;
      if event.TipluRevealed? {
        indicators := indicators + [event.card];
      }
    }
    assert s.history[..|s.history|] == s.history;
    ok := previousRevision == s.revision && |indicators| <= 1 && (indicators == [] || s.tiplu == Some(indicators[0]));
  }

  // What one more event asks of the history so far.
  lemma HistoryNext(history: seq<Event>, event: Event, ruleOn: bool)
    ensures var h := history + [event];
            && (EventsOrdered(h) <==>
                  EventsOrdered(history) && event.sequence == |history| + 1 && event.revision >= 1
                  && (event.revision == LastRevision(history) || event.revision == LastRevision(history) + 1))
            && (DeclaredBeforeDraw(h, ruleOn) <==>
                  DeclaredBeforeDraw(history, ruleOn) && (event.TunnelasDeclared? ==> ruleOn && !DrawStarted(history)))
            && (DrawStarted(h) <==> DrawStarted(history) || event.CardDrawn?)
            && Indicators(h) == Indicators(history) + (if event.TipluRevealed? then [event.card] else [])
            && LastRevision(h) == event.revision
  {
    var h := history + [event];
    assert h[..|h| - 1] == history;
  }

  lemma {:induction false} HistoryPrefix(history: seq<Event>, n: nat, ruleOn: bool)
    requires n <= |history|
    ensures EventsOrdered(history) ==> EventsOrdered(history[..n])
    ensures DeclaredBeforeDraw(history, ruleOn) ==> DeclaredBeforeDraw(history[..n], ruleOn)
    decreases |history|
  {
    if n == |history| {
      assert history[..n] == history;
    } else {
      var before := history[..|history| - 1];
      HistoryPrefix(before, n, ruleOn);
      assert before[..n] == history[..n];
    }
  }

  method ValidateGameState(s: GameState) returns (ok: bool)
    requires Formed(s)
    ensures ok <==> Audit(s)
  {
    hide Conserved, SeatOk, FinishedOk, ActiveOk, InitialOk, ForcedOk, IndicatorSeen, StandardIndicator, RosterOk;
    if s.status == Waiting {
      return InitialOk(s);
    }
    if !RosterOk(s.config, s.players) || !TurnOk(s) || !Conserved(s.players, s.stock, s.discard, s.tiplu)
       || !StandardIndicator(s.tiplu) {
      return false;
    }
    if s.status == InProgress && !ActiveOk(s) {
      return false;
    }
    if s.status == Finished && !FinishedOk(s) {
      return false;
    }
    if !ForcedOk(s) {
      return false;
    }
    for seat := 0 to |s.players|
      invariant forall k :: 0 <= k < seat ==> SeatOk(s, k)
    {
      if !SeatOk(s, seat) {
        return false;
      }
    }
    if !IndicatorSeen(s) {
      return false;
    }
    ok := CheckHistory(s);
  }
}
