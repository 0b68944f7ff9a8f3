// The engine object: its snapshot is replaced only by an audited commit. Also
// what the engine advertises as legal, against what it accepts.
module MarriageGame {
  import opened Prelude
  import opened Cards
  import opened MarriageCards
  import opened MarriageModels
  import opened MarriageCompletion
  import opened MarriageSolver
  import opened MarriageFinder
  import opened MarriageState
  import opened MarriageAudit
  import opened MarriageSteps
  import opened MarriageInvariant
  import opened MarriageEngine

  datatype Reply = Refused(error: Error) | Done(revision: nat, events: seq<Event>)

  // What an outcome does to the snapshot when the audit accepts it.
  function Settled(s: GameState, r: Outcome): GameState {
    if r.Rejected? then s else Commit(s, r.candidate, r.events)
  }

  function ReplyTo(s: GameState, r: Outcome): Reply {
    if r.Rejected? then Refused(r.error) else Done(s.revision + 1, r.events)
  }

  // deal_cards: pop cards from the end of the deck, one per hand and round.
  method DealCards(deck: seq<PhysicalCard>, n: nat) returns (hands: seq<seq<PhysicalCard>>, stock: seq<PhysicalCard>)
    requires 2 <= n <= 5 && |deck| == 159
    ensures (hands, stock) == Dealt(deck, n, HAND_SIZE, 0)
  {
    hands, stock := seq(n, _ => []), deck;
    for r := 0 to HAND_SIZE
      invariant (hands, stock) == Dealt(deck, n, r, 0)
    {
      for j := 0 to n
        invariant |hands| == n && (hands, stock) == Dealt(deck, n, r, j)
      {
        DealtStep(deck, n, r, j + 1);
        hands, stock := hands[j := hands[j] + [stock[|stock| - 1]]], stock[..|stock| - 1];
      }
    }
  }

  class MarriageGameEngine {
    var state: GameState

    ghost predicate Valid()
      reads this
    {
      Inv(state)
    }

    constructor (config: Config)
      requires ConfigFormed(config)
      ensures Valid() && state == Fresh(config)
    {
      FreshInv(config);
      state := Fresh(config);
    }

    // _commit_turn
    method CommitTurn(candidate: GameState, events: seq<Event>) returns (reply: Reply)
      requires Formed(Commit(state, candidate, events))
      modifies this
      ensures var committed := Commit(old(state), candidate, events);
              if Audit(committed) then state == committed && reply == Done(committed.revision, events)
              else state == old(state) && reply == Refused(CardConservation)
    {
      var committed := Commit(state, candidate, events);
      var ok := ValidateGameState(committed);
      if !ok {
        return Refused(CardConservation);
      }
      state := committed;
      reply := Done(committed.revision, events);
    }

    method StartGame(shuffle: Shuffle) returns (reply: Reply)
      requires Valid() && Shuffles(shuffle)
      modifies this
      ensures Valid()
      ensures old(state).status == Waiting <==> reply.Done?
      ensures reply.Refused? ==> reply == Refused(InvalidAction) && state == old(state)
      ensures reply.Done? ==> state == MarriageEngine.Candidate(old(state), Command.StartGame, shuffle)
                              && reply == Done(1, state.history) && InitialOk(state)
    {
      hide Inv, InitialOk, Start, Dealt, CreateDeck, Shuffles;
      InvGives(state);
      SameLength(shuffle);
      StartDecides(state, shuffle);
      if state.status != Waiting {
        return Refused(InvalidAction);
      }
      StartKeeps(state, shuffle);
      var config := state.config;
      var hands, rest := DealCards(shuffle(CreateDeck()), |config.playerIds|);
      var candidate := GameState(
        config, seq(|hands|, i requires 0 <= i < |hands| => FreshPlayer(config.playerIds[i], hands[i])),
        rest[..|rest| - 1], rest[|rest| - 1..], Some(IndexOf(config.playerIds, config.firstPlayerId)), Some(MustDraw),
        InProgress, None, false, None, [], 1, StartEvents(config), None, false);
      StartIs(state, shuffle);
      var ok := InitialOk(candidate);
      if !ok {
        return Refused(CardConservation);
      }
      state := candidate;
      reply := Done(candidate.revision, candidate.history);
    }

    method DeclareTunnelas(id: string, melds: seq<Meld>) returns (reply: Reply)
      requires Valid()
      modifies this
      ensures Valid()
      ensures var r := Declare(old(state), id, melds);
              state == Settled(old(state), r) && reply == ReplyTo(old(state), r)
    {
      hide Inv, Audit, Declare;
      var r := Declare(state, id, melds);
      if r.Rejected? {
        return Refused(r.error);
      }
      DeclareKeeps(state, id, melds);
      InvAudits(Commit(state, r.candidate, r.events));
      reply := CommitTurn(r.candidate, r.events);
    }

    method DrawCard(id: string, source: DrawSource, shuffle: Shuffle) returns (reply: Reply)
      requires Valid() && Shuffles(shuffle) && forall cards :: |shuffle(cards)| == |cards|
      modifies this
      ensures Valid()
      ensures var r := Draw(old(state), id, source, shuffle);
              state == Settled(old(state), r) && reply == ReplyTo(old(state), r)
    {
      hide Inv, Audit, Draw, Shuffles;
      var r := Draw(state, id, source, shuffle);
      if r.Rejected? {
        return Refused(r.error);
      }
      DrawKeeps(state, id, source, shuffle);
      InvAudits(Commit(state, r.candidate, r.events));
      reply := CommitTurn(r.candidate, r.events);
    }

    method DiscardCard(id: string, card: CardId) returns (reply: Reply)
      requires Valid()
      modifies this
      ensures Valid()
      ensures var r := MarriageSteps.DiscardCard(old(state), id, card);
              state == Settled(old(state), r) && reply == ReplyTo(old(state), r)
    {
      hide Inv, Audit, MarriageSteps.DiscardCard;
      var r := MarriageSteps.DiscardCard(state, id, card);
      if r.Rejected? {
        return Refused(r.error);
      }
      DiscardKeeps(state, id, card);
      InvAudits(Commit(state, r.candidate, r.events));
      reply := CommitTurn(r.candidate, r.events);
    }

    // _show, with the declaration checked meld by meld.
    method Show(id: string, melds: seq<Meld>, route: Route, shuffle: Shuffle) returns (reply: Reply)
      requires Valid() && Shuffles(shuffle) && route != Unqualified
      modifies this
      ensures Valid()
      ensures var r := MarriageSteps.Show(old(state), id, melds, route, shuffle);
              state == Settled(old(state), r) && reply == ReplyTo(old(state), r)
    {
      hide Inv, Audit, RequireTurn, ValidDeclaration, ShowSelection, ShowEvents, WithPlayer, Shuffles;
      var turn := RequireTurn(state, id, MustDiscard, false);
      if turn.Blocked? {
        return Refused(turn.error);
      }
      var player := state.players[turn.seat];
      if player.route != Unqualified {
        return Refused(InvalidAction);
      }
      var ok := CheckDeclaration(player, melds, route, state.config.rules, false);
      if !ok {
        return Refused(InvalidMeld);
      }
      var selection := ShowSelection(state, shuffle);
      if selection.Unavailable? {
        return Refused(TipluUnavailable);
      }
      var qualified := player.(route := route, shownMelds := melds, committed := Elems(MeldIds(melds)),
          hasSeenMaal := true);
      var candidate := state.(players := WithPlayer(state.players, id, qualified), tiplu := Some(selection.tiplu),
                              stock := selection.stock, discard := selection.discard);
      var events := ShowEvents(state, id, melds, route, selection);
      ShowKeeps(state, id, melds, route, shuffle);
      InvAudits(Commit(state, candidate, events));
      reply := CommitTurn(candidate, events);
    }

    method Fold(id: string) returns (reply: Reply)
      requires Valid()
      modifies this
      ensures Valid()
      ensures var r := MarriageSteps.Fold(old(state), id);
              state == Settled(old(state), r) && reply == ReplyTo(old(state), r)
    {
      hide Inv, Audit, MarriageSteps.Fold, ActiveCount;
      InvGives(state);
      var r := MarriageSteps.Fold(state, id);
      if r.Rejected? {
        return Refused(r.error);
      }
      FoldKeeps(state, id);
      InvAudits(Commit(state, r.candidate, r.events));
      reply := CommitTurn(r.candidate, r.events);
    }

    // finish, with the solver's search when no partition is supplied.
    method Finish(id: string, melds: Option<seq<Meld>>, discard: Option<CardId>,
      pair: Option<seq<CardId>>) returns (reply: Reply)
      requires Valid()
      modifies this
      ensures Valid()
      ensures var r := MarriageSteps.Finish(old(state), id, melds, discard, pair);
              state == Settled(old(state), r) && reply == ReplyTo(old(state), r)
    {
      hide Inv, Audit, RequireTurn, ValidNormalFinish, ValidEighthPair, EighthPair, FindFinish,
        PlayerFormed, WithPlayer;
      InvGives(state);
      var turn := RequireTurn(state, id, MustDiscard, true);
      if turn.Blocked? {
        return Refused(turn.error);
      }
      var player := state.players[turn.seat];
      var candidate, events;
      if player.route == Normal {
        if !SelectionShape(melds, discard, pair) {
          return Refused(InvalidAction);
        }
        var found;
        if melds.Some? {
          found := Some(NormalFinish(melds.value, discard.value));
        } else {
          found := NormalFinishOf(player, state.tiplu, state.config.rules);
        }
        if found.None? || !ValidNormalFinish(player, state.tiplu, state.config.rules, found.value) {
          return Refused(InvalidAction);
        }
        var r := FinishNormally(state, id, player, found.value);
        candidate, events := r.candidate, r.events;
      } else {
        if melds.Some? || discard.Some? {
          return Refused(InvalidAction);
        }
        var chosen := if pair.Some? then pair.value else EighthPair(player);
        if !ValidEighthPair(player, chosen) {
          return Refused(InvalidAction);
        }
        candidate := state.(players := WithPlayer(state.players, id, player.(finished := true)), status := Finished,
                            winner := Some(id), winningPair := chosen, mustFinish := false);
        events := [PlayerFinished(|state.history| + 1, state.revision + 1, id, chosen, [], [], None)];
      }
      FinishKeeps(state, id, melds, discard, pair);
      InvAudits(Commit(state, candidate, events));
      reply := CommitTurn(candidate, events);
    }
  }

  lemma StartDecides(s: GameState, shuffle: Shuffle)
    requires Formed(s) && |shuffle(CreateDeck())| == 159
    ensures Start(s, shuffle).Accepted? <==> s.status == Waiting
  {
  }

  lemma StartIs(s: GameState, shuffle: Shuffle)
    requires Formed(s) && s.status == Waiting && |shuffle(CreateDeck())| == 159
    ensures var (hands, rest) := Dealt(shuffle(CreateDeck()), |s.config.playerIds|, HAND_SIZE, 0);
            |rest| > 0 &&
            Start(s, shuffle) == Accepted(GameState(
              s.config, seq(|hands|, i requires 0 <= i < |hands| => FreshPlayer(s.config.playerIds[i], hands[i])),
              rest[..|rest| - 1], rest[|rest| - 1..], Some(IndexOf(s.config.playerIds, s.config.firstPlayerId)), Some(MustDraw),
              InProgress, None, false, None, [], 1, StartEvents(s.config), None, false), StartEvents(s.config))
  {
    assert 21 * |s.config.playerIds| <= 105;
  }

  // ---- advertised actions

  datatype ActionKind = DrawKind | DiscardKind | DeclareKind | ShowMeldsKind | ShowDubleesKind | FinishKind | FoldKind

  datatype AllowedActions = AllowedActions(kinds: seq<ActionKind>, sources: seq<DrawSource>, discardable: seq<CardId>)

  function OpenSources(s: GameState, p: PlayerState): seq<DrawSource> {
    (if SourceBlock(s, p, Stock).None? then [Stock]
        else []) + (if SourceBlock(s, p, Discard).None? then [Discard] else [])
  }

  // allowed_actions for the player in a seat.
  function Allowed(s: GameState, seat: nat): AllowedActions
    requires seat < |s.players| && Formed(s) && StandardIndicator(s.tiplu)
  {
    var p := s.players[seat];
    var none := AllowedActions([], [], []);
    if p.folded then none
    else if DeclarationsPending(s) then AllowedActions(if p.tunnelaDeclared then [] else [DeclareKind], [], [])
    else
      var fold := if s.status == InProgress then [FoldKind] else [];
      if s.status == InProgress && CurrentPlayer(s) == Some(p.id) && s.mustFinish then
        AllowedActions(if EighthPair(p) != [] then [FinishKind, FoldKind] else fold, [], [])
      else if TurnBlocked(s, p) then AllowedActions(fold, [], [])
      else if s.phase == Some(MustDraw) then
        var sources := OpenSources(s, p);
        AllowedActions((if sources != [] then [DrawKind] else []) + fold, sources, [])
      else
        var ids := DiscardableIds(s, p);
        var discards := [FoldKind] + if ids != [] then [DiscardKind] else [];
        AllowedActions(
          if p.route == Unqualified then discards + [ShowMeldsKind, ShowDubleesKind]
          else if EighthPair(p) != [] || FindFinish(p, s.tiplu, s.config.rules).Some? then discards + [FinishKind]
          else discards, [], ids)
  }

  lemma SeatIsFound(s: GameState, seat: nat)
    requires RosterOk(s.config, s.players) && ConfigFormed(s.config) && seat < |s.players|
    ensures SeatOf(s.players, s.players[seat].id) == Some(seat)
  {
    var found := SeatOf(s.players, s.players[seat].id).value;
    assert s.config.playerIds[found] == s.config.playerIds[seat];
  }

  // In every reachable state the advertised draw sources and discards are
  // exactly the ones the commands accept.
  lemma DrawAdvertised(s: GameState, seat: nat, source: DrawSource, shuffle: Shuffle)
    requires Inv(s) && s.status != Waiting
    requires seat < |s.players| && forall cards :: |shuffle(cards)| == |cards|
    ensures source in Allowed(s, seat).sources <==> Draw(s, s.players[seat].id, source, shuffle).Accepted?
  {
    hide SeatOk, HistoryOk, FinishedOk, ActiveOk, EighthPair, FindFinish, Conserved, DeclarationsPending,
      PlayerFormed, WinningDiscard;
    SeatIsFound(s, seat);
  }

  lemma DiscardAdvertised(s: GameState, seat: nat, card: CardId)
    requires Inv(s) && s.status != Waiting && seat < |s.players|
    ensures card in Allowed(s, seat).discardable <==> MarriageSteps.DiscardCard(s, s.players[seat].id, card).Accepted?
  {
    hide SeatOk, HistoryOk, FinishedOk, ActiveOk, EighthPair, FindFinish, Conserved, DeclarationsPending, PlayerFormed;
    SeatIsFound(s, seat);
  }

  // Whether the player in a seat may finish now.
  predicate FinishOpen(s: GameState, p: PlayerState) {
    && s.status == InProgress && !p.folded && !DeclarationsPending(s) && CurrentPlayer(s) == Some(p.id)
    && s.phase == Some(MustDiscard)
  }

  predicate CanFinish(p: PlayerState, tiplu: Option<PhysicalCard>, rules: Rules)
    requires PlayerFormed(p) && (tiplu.Some? ==> tiplu.value.Standard?)
  {
    if p.route == Normal then FindFinish(p, tiplu, rules).Some? else EighthPair(p) != []
  }

  lemma FinishAdvertised(s: GameState, seat: nat)
    requires Inv(s) && s.status != Waiting && seat < |s.players|
    ensures FinishKind in Allowed(s, seat).kinds <==>
            MarriageSteps.Finish(s, s.players[seat].id, None, None, None).Accepted?
  {
    hide Audit, Unaudited, Formed;
    FinishAccepted(s, seat);
    FinishListed(s, seat);
  }

  lemma FinishAccepted(s: GameState, seat: nat)
    requires Inv(s) && s.status != Waiting && seat < |s.players|
    ensures MarriageSteps.Finish(s, s.players[seat].id, None, None, None).Accepted? <==>
            FinishOpen(s, s.players[seat]) && CanFinish(s.players[seat], s.tiplu, s.config.rules)
  {
    hide HistoryOk, FinishedOk, ActiveOk, EighthPair, FindFinish, Conserved, DeclarationsPending, PlayerFormed;
    hide ValidNormalFinish, ValidEighthPair, TunnelasOk, DeclarationMatches, Declarations;
    SeatIsFound(s, seat);
    var p := s.players[seat];
    assert SeatOk(s, seat);
    FinishSound(p, s.tiplu, s.config.rules);
    FinderNeedsRoute(p, s.tiplu, s.config.rules);
    EmptyPairInvalid(p);
    if !p.folded {
      EighthPairExact(p);
    }
  }

  lemma EmptyPairInvalid(p: PlayerState)
    ensures !ValidEighthPair(p, [])
  {
  }

  lemma FinishListed(s: GameState, seat: nat)
    requires Inv(s) && s.status != Waiting && seat < |s.players|
    ensures FinishKind in Allowed(s, seat).kinds <==>
            FinishOpen(s, s.players[seat]) && CanFinish(s.players[seat], s.tiplu, s.config.rules)
  {
    hide HistoryOk, FinishedOk, ActiveOk, EighthPair, FindFinish, Conserved, DeclarationsPending,
      PlayerFormed, OpenSources;
    hide SeatOk, DiscardableIds;
    FinderNeedsRoute(s.players[seat], s.tiplu, s.config.rules);
    var p := s.players[seat];
    if s.status == InProgress && !p.folded && !DeclarationsPending(s) && CurrentPlayer(s) == Some(p.id) {
      var ids := s.config.playerIds;
      assert ids[seat] == ids[s.currentSeat.value];
      assert seat == s.currentSeat.value;
      if s.mustFinish {
        assert EighthPair(p) != [] && p.route == DubleeRoute;
      } else if s.phase == Some(MustDiscard) {
        assert !TurnBlocked(s, p);
        MenuOf(DiscardableIds(s, p) != []);
      } else {
        assert !TurnBlocked(s, p) && s.phase.value.MustDraw?;
        assert FinishKind !in (if OpenSources(s, p) != [] then [DrawKind] else []) + [FoldKind];
      }
    }
  }

  lemma MenuOf(discards: bool)
    ensures var menu := [FoldKind] + if discards then [DiscardKind] else [];
            && FinishKind !in menu && FinishKind !in menu + [ShowMeldsKind, ShowDubleesKind]
            && FinishKind in menu + [FinishKind]
  {
  }

  lemma FinderNeedsRoute(p: PlayerState, tiplu: Option<PhysicalCard>, rules: Rules)
    requires PlayerFormed(p) && (tiplu.Some? ==> tiplu.value.Standard?)
    ensures p.route != Normal ==> FindFinish(p, tiplu, rules).None?
    ensures p.route != DubleeRoute ==> EighthPair(p) == []
    ensures p.route == Unqualified ==> forall pair :: !ValidEighthPair(p, pair)
  {
  }

  // Folding is the one action every active player can always take.
  lemma FoldAdvertised(s: GameState, seat: nat)
    requires Inv(s) && s.status == InProgress && seat < |s.players|
    ensures MarriageSteps.Fold(s, s.players[seat].id).Accepted? <==> !s.players[seat].folded
    ensures FoldKind in Allowed(s, seat).kinds <==> !s.players[seat].folded && !DeclarationsPending(s)
  {
    hide SeatOk, HistoryOk, EighthPair, FindFinish, Conserved, DeclarationsPending, PlayerFormed;
    SeatIsFound(s, seat);
  }
}
