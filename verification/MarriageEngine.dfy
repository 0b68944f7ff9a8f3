// The transactional engine: every command builds a candidate, audits it, and
// only then replaces the snapshot. The audit never refuses one.
module MarriageEngine {
  import opened Prelude
  import opened Cards
  import opened MarriageCards
  import opened MarriageModels
  import opened MarriageCompletion
  import opened MarriageSolver
  import opened MarriageFinder
  import opened MarriageState
  import opened MarriageAudit
  import opened MarriageSteps
  import opened MarriageInvariant

  type Shuffle = seq<PhysicalCard> -> seq<PhysicalCard>

  datatype Command =
    | StartGame
    | DeclareTunnelas(id: string, melds: seq<Meld>)
    | DrawCard(id: string, source: DrawSource)
    | DiscardOne(id: string, card: CardId)
    | ShowInitialMelds(id: string, melds: seq<Meld>)
    | ShowDublees(id: string, melds: seq<Meld>)
    | FoldHand(id: string)
    | FinishRound(id: string, chosen: Option<seq<Meld>>, discard: Option<CardId>, pair: Option<seq<CardId>>)

  // ---- runs

  lemma InvGives(s: GameState)
    requires Inv(s)
    ensures Formed(s) && StandardIndicator(s.tiplu)
    ensures TurnOk(s) || s.status != InProgress
    ensures s.status == InProgress ==> ActiveCount(s.players) >= 2 && RosterOk(s.config, s.players) && ConfigFormed(s.config)
  {
  }

  ghost function Decide(s: GameState, command: Command, shuffle: Shuffle): Outcome
    requires Inv(s) && Shuffles(shuffle)
  {
    InvGives(s);
    SameLength(shuffle);
    match command
    case StartGame => Start(s, shuffle)
    case DeclareTunnelas(id, melds) => Declare(s, id, melds)
    case DrawCard(id, source) => Draw(s, id, source, shuffle)
    case DiscardOne(id, card) => DiscardCard(s, id, card)
    case ShowInitialMelds(id, melds) => Show(s, id, melds, Normal, shuffle)
    case ShowDublees(id, melds) => Show(s, id, melds, DubleeRoute, shuffle)
    case FoldHand(id) => Fold(s, id)
    case FinishRound(id, melds, discard, pair) => Finish(s, id, melds, discard, pair)
  }

  // The state an accepted command asks to commit.
  ghost function Candidate(s: GameState, command: Command, shuffle: Shuffle): GameState
    requires Inv(s) && Shuffles(shuffle)
  {
    var r := Decide(s, command, shuffle);
    if r.Rejected? then s
    else if command.StartGame? then r.candidate
    else Commit(s, r.candidate, r.events)
  }

  // Whatever the command, the candidate passes the audit and keeps the invariant.
  lemma CandidateAudited(s: GameState, command: Command, shuffle: Shuffle)
    requires Inv(s) && Shuffles(shuffle)
    ensures var t := Candidate(s, command, shuffle); Formed(t) && Audit(t) && Inv(t)
  {
    InvGives(s);
    SameLength(shuffle);
    hide Start, Declare, Draw, DiscardCard, Show, Fold, Finish, Commit, Inv, Audit, Shuffles, StandardIndicator, TurnOk;
    var r := Decide(s, command, shuffle);
    var t := Candidate(s, command, shuffle);
    if r.Accepted? {
      match command
      case StartGame => StartKeeps(s, shuffle);
      case DeclareTunnelas(id, melds) => DeclareKeeps(s, id, melds);
      case DrawCard(id, source) => DrawKeeps(s, id, source, shuffle);
      case DiscardOne(id, card) => DiscardKeeps(s, id, card);
      case ShowInitialMelds(id, melds) => ShowKeeps(s, id, melds, Normal, shuffle);
      case ShowDublees(id, melds) => ShowKeeps(s, id, melds, DubleeRoute, shuffle);
      case FoldHand(id) => FoldKeeps(s, id);
      case FinishRound(id, melds, discard, pair) => FinishKeeps(s, id, melds, discard, pair);
    }
    InvAudits(t);
  }

  datatype Move = Move(command: Command, shuffle: Shuffle)

  ghost predicate Fair(moves: seq<Move>) {
    forall i :: 0 <= i < |moves| ==> Shuffles(moves[i].shuffle)
  }

  // The state after any sequence of commands on a fresh engine.
  ghost function Reached(config: Config, moves: seq<Move>): (s: GameState)
    requires ConfigFormed(config) && Fair(moves)
    ensures Inv(s)
  {
    if moves == [] then
      FreshInv(config);
      Fresh(config)
    else
      var before := Reached(config, moves[..|moves| - 1]);
      var last := moves[|moves| - 1];
      CandidateAudited(before, last.command, last.shuffle);
      Candidate(before, last.command, last.shuffle)
  }

  // Over every run: the audit accepts each state, and would accept whatever is
  // committed next; the deck is whole; declarations precede draws.
  lemma RunAudited(config: Config, moves: seq<Move>, next: Move)
    requires ConfigFormed(config) && Fair(moves) && Shuffles(next.shuffle)
    ensures var s := Reached(config, moves);
            && Formed(s) && Audit(s)
            && (s.status != Waiting ==>
                  && Conserved(s.players, s.stock, s.discard, s.tiplu)
                  && forall i, j ::
                       0 <= i < |s.history| && 0 <= j < |s.history| && s.history[i].CardDrawn?
                           && s.history[j].TunnelasDeclared? ==>
                         j < i)
            && var t := Candidate(s, next.command, next.shuffle);
            Formed(t) && Audit(t)
  {
    hide Conserved, SeatOk, FinishedOk, ForcedOk, ActiveOk;
    var s := Reached(config, moves);
    CandidateAudited(s, next.command, next.shuffle);
    if s.status != Waiting {
      DeclarationsFirst(s.history, s.config.rules.scoring.initialTunnelaDeclaration);
    }
  }

  lemma {:induction false} DeclarationsFirst(history: seq<Event>, ruleOn: bool)
    requires DeclaredBeforeDraw(history, ruleOn)
    ensures forall i, j ::
              0 <= i < |history| && 0 <= j < |history| && history[i].CardDrawn? && history[j].TunnelasDeclared? ==> j < i
  {
    if history != [] {
      var before := history[..|history| - 1];
      DeclarationsFirst(before, ruleOn);
      DrawAnywhere(before);
      forall i, j | 0 <= i < |history| && 0 <= j < |history| && history[i].CardDrawn? && history[j].TunnelasDeclared?
        ensures j < i
      {
        if i < |before| {
          assert before[i].CardDrawn?;
          if j < |before| { assert before[j].TunnelasDeclared?; }
        }
      }
    }
  }

  lemma {:induction false} DrawAnywhere(history: seq<Event>)
    ensures DrawStarted(history) <==> exists i :: 0 <= i < |history| && history[i].CardDrawn?
  {
    if history != [] {
      var before := history[..|history| - 1];
      DrawAnywhere(before);
      if i :| 0 <= i < |history| && history[i].CardDrawn? {
        if i < |before| { assert before[i].CardDrawn?; }
      }
    }
  }

  // ---- what never changes

  // Once revealed the indicator stays, history only grows, and what a player
  // committed or declared stays in the hand.
  ghost predicate Grows(s: GameState, t: GameState) {
    && t.config == s.config
    && s.history <= t.history && s.revision <= t.revision
    && (s.tiplu.Some? ==> t.tiplu == s.tiplu)
    && |s.players| == |t.players|
    && forall k :: 0 <= k < |s.players| ==> SeatGrows(s.players[k], t.players[k])
  }

  ghost predicate SeatGrows(p: PlayerState, q: PlayerState) {
    && q.id == p.id
    && (p.route != Unqualified ==> q.route == p.route && q.shownMelds == p.shownMelds && q.committed == p.committed)
    && (p.tunnelaDeclared ==> q.tunnelaDeclared && q.initialTunnelas == p.initialTunnelas)
    && (p.folded ==> q.folded && q.hand == p.hand)
    && (p.finished ==> q.finished)
    && forall c :: c in p.hand && Locked(p, c) ==> c in q.hand && Locked(q, c)
  }

  lemma SeatStays(p: PlayerState)
    ensures SeatGrows(p, p)
  {
  }

  lemma OneSeatGrows(s: GameState, t: GameState, seat: nat, q: PlayerState)
    requires seat < |s.players| && t.players == s.players[seat := q] && SeatGrows(s.players[seat], q)
    requires t.config == s.config && s.history <= t.history && s.revision <= t.revision
             && (s.tiplu.Some? ==> t.tiplu == s.tiplu)
    ensures Grows(s, t)
  {
    forall k | 0 <= k < |s.players| ensures SeatGrows(s.players[k], t.players[k]) {
      SeatStays(s.players[k]);
    }
  }

  lemma PutGrows(p: PlayerState, q: PlayerState, card: CardId)
    requires q == p.(finished := q.finished, hand := Without(p.hand, {card})) && !Locked(p, card) && !p.folded
    requires p.finished ==> q.finished
    ensures SeatGrows(p, q)
  {
  }

  lemma CandidateGrows(s: GameState, command: Command, shuffle: Shuffle)
    requires Inv(s) && Shuffles(shuffle)
    ensures Grows(s, Candidate(s, command, shuffle))
  {
    InvGives(s);
    SameLength(shuffle);
    var r := Decide(s, command, shuffle);
    var t := Candidate(s, command, shuffle);
    hide Start, Declare, Draw, DiscardCard, Show, Fold, Finish, Commit, Audit, Unaudited, Formed, Shuffles,
      StandardIndicator;
    hide SeatGrows, Locked, Indicators, PlayerFormed, ActiveCount, SeatOk, RosterOk, ConfigFormed, Piles,
      Continues, Quiet, ValidDeclaration;
    hide TunnelaError, DrawStarted, ShowEvents, ShowSelection, DeclarationsPending, RequireTurn;
    if r.Rejected? {
      NothingGrows(s);
    } else {
      match command
      case StartGame => StartGrows(s, shuffle);
      case DeclareTunnelas(id, melds) =>
        var t', seat := DeclareShape(s, id, melds);
        DeclaredGrows(s.players[seat], melds, s, seat);
        OneSeatGrows(s, t, seat, Declared(s.players[seat], melds));
      case DrawCard(id, source) =>
        var t', card := DrawShape(s, id, source, shuffle);
        var seat := s.currentSeat.value;
        TurnIs(s, id, MustDraw, false);
        DrawnGrows(s.players[seat], card);
        OneSeatGrows(s, t, seat, s.players[seat].(hand := s.players[seat].hand + [card]));
      case DiscardOne(id, card) =>
        var t' := DiscardShape(s, id, card);
        var seat := s.currentSeat.value;
        TurnIs(s, id, MustDiscard, false);
        var q := s.players[seat].(hand := Without(s.players[seat].hand, {card}));
        PutGrows(s.players[seat], q, card);
        OneSeatGrows(s, t, seat, q);
      case ShowInitialMelds(id, melds) =>
        ShowGrows(s, id, melds, Normal, shuffle);
      case ShowDublees(id, melds) =>
        ShowGrows(s, id, melds, DubleeRoute, shuffle);
      case FoldHand(id) => FoldGrows(s, id);
      case FinishRound(id, melds, discard, pair) => FinishGrows(s, id, melds, discard, pair);
    }
  }

  lemma NothingGrows(s: GameState)
    ensures Grows(s, s)
  {
    forall k | 0 <= k < |s.players| ensures SeatGrows(s.players[k], s.players[k]) { SeatStays(s.players[k]); }
  }

  lemma StartGrows(s: GameState, shuffle: Shuffle)
    requires Inv(s) && Formed(s) && Shuffles(shuffle) && |shuffle(CreateDeck())| == 159 && Start(s, shuffle).Accepted?
    ensures Grows(s, Start(s, shuffle).candidate)
  {
    var t := Start(s, shuffle).candidate;
    assert InitialOk(s);
    assert |t.players| == |s.players|;
    forall k | 0 <= k < |s.players| ensures SeatGrows(s.players[k], t.players[k]) {
      assert StartupPlayer(s.players[k]) && s.players[k].hand == [];
    }
  }

  lemma DeclaredGrows(p: PlayerState, melds: seq<Meld>, s: GameState, seat: nat)
    requires seat < |s.players| && p == s.players[seat] && SeatOk(s, seat) && !p.tunnelaDeclared
    ensures SeatGrows(p, Declared(p, melds))
  {
    hide ValidMeld, RouteOk;
  }

  lemma DrawnGrows(p: PlayerState, card: PhysicalCard)
    requires !p.folded
    ensures SeatGrows(p, p.(hand := p.hand + [card]))
  {
  }

  lemma ShowGrows(s: GameState, id: string, melds: seq<Meld>, route: Route, shuffle: Shuffle)
    requires Inv(s) && Shuffles(shuffle) && route != Unqualified
    requires Show(s, id, melds, route, shuffle).Accepted?
    ensures var r := Show(s, id, melds, route, shuffle); Grows(s, Commit(s, r.candidate, r.events))
  {
    hide Show, Commit, Shuffles, Audit, Unaudited, Formed, ShowEvents, ShowSelection, ValidDeclaration, Piles,
      RequireTurn;
    var t := ShowShape(s, id, melds, route, shuffle);
    var seat := s.currentSeat.value;
    var q := Qualified(s.players[seat], route, melds);
    TurnIs(s, id, MustDiscard, false);
    QualifiedGrows(s.players[seat], route, melds, s, seat);
    OneSeatGrows(s, t, seat, q);
  }

  lemma QualifiedGrows(p: PlayerState, route: Route, melds: seq<Meld>, s: GameState, seat: nat)
    requires seat < |s.players| && p == s.players[seat] && SeatOk(s, seat) && p.route == Unqualified && !p.folded
    ensures SeatGrows(p, Qualified(p, route, melds))
  {
    hide TunnelasOk;
  }

  lemma FoldGrows(s: GameState, id: string)
    requires Inv(s) && (TurnOk(s) || s.status != InProgress)
    requires s.status == InProgress ==> ActiveCount(s.players) >= 2 && RosterOk(s.config, s.players) && ConfigFormed(s.config)
    requires Fold(s, id).Accepted?
    ensures var r := Fold(s, id); Grows(s, Commit(s, r.candidate, r.events))
  {
    hide SeatGrows, Fold, Commit, Inv, Continues, Quiet, DrawStarted, ActiveCount, RosterOk, ConfigFormed;
    var t, seat := FoldShape(s, id);
    forall k | 0 <= k < |s.players| ensures SeatGrows(s.players[k], t.players[k]) {
      FlagGrows(s.players[k], t.players[k]);
    }
  }

  lemma FlagGrows(p: PlayerState, q: PlayerState)
    requires q == p.(folded := q.folded, finished := q.finished)
    requires (p.folded ==> q.folded) && (p.finished ==> q.finished)
    ensures SeatGrows(p, q)
  {
  }

  lemma FinishGrows(s: GameState, id: string, melds: Option<seq<Meld>>, discard: Option<CardId>,
    pair: Option<seq<CardId>>)
    requires Formed(s) && Inv(s) && StandardIndicator(s.tiplu) && Finish(s, id, melds, discard, pair).Accepted?
    ensures var r := Finish(s, id, melds, discard, pair); Grows(s, Commit(s, r.candidate, r.events))
  {
    hide ValidNormalFinish, ValidEighthPair, EighthPair, FindFinish, PlayerFormed, Audit, Unaudited,
      DeclarationsPending, SeatOk, ActiveCount, Locked;
    var r := Finish(s, id, melds, discard, pair);
    TurnIs(s, id, MustDiscard, true);
    var seat := s.currentSeat.value;
    var p := s.players[seat];
    var t := Commit(s, r.candidate, r.events);
    if p.route == Normal {
      var w := FinishWitness(s, p, melds, discard).value;
      FinishDiscard(p, s.tiplu, s.config.rules, w);
      var q := p.(finished := true, hand := Without(p.hand, {w.discard}));
      OneSeat(s, seat, q);
      PutGrows(p, q, w.discard);
      OneSeatGrows(s, t, seat, q);
    } else {
      var q := p.(finished := true);
      OneSeat(s, seat, q);
      FinishedGrows(p);
      OneSeatGrows(s, t, seat, q);
    }
  }

  lemma FinishedGrows(p: PlayerState)
    ensures SeatGrows(p, p.(finished := true))
  {
  }

  lemma GrowsThrough(s: GameState, t: GameState, u: GameState)
    requires Grows(s, t) && Grows(t, u)
    ensures Grows(s, u)
  {
    hide Locked;
    forall k | 0 <= k < |s.players| ensures SeatGrows(s.players[k], u.players[k]) {
      assert SeatGrows(s.players[k], t.players[k]) && SeatGrows(t.players[k], u.players[k]);
    }
  }

  // From any point of a run to any later one.
  lemma {:induction false} RunGrows(config: Config, moves: seq<Move>, more: seq<Move>)
    requires ConfigFormed(config) && Fair(moves + more) && Fair(moves)
    ensures Grows(Reached(config, moves), Reached(config, moves + more))
    decreases |more|
  {
    hide Grows, Candidate;
    if more == [] {
      assert moves + more == moves;
      NothingGrows(Reached(config, moves));
    } else {
      var init, last := more[..|more| - 1], more[|more| - 1];
      var all := moves + more;
      assert all[..|all| - 1] == moves + init && all[|all| - 1] == last;
      assert Fair(moves + init) by {
        forall i | 0 <= i < |moves + init| ensures Shuffles((moves + init)[i].shuffle) { assert all[i]
            == (moves + init)[i]; }
      }
      RunGrows(config, moves, init);
      CandidateGrows(Reached(config, moves + init), last.command, last.shuffle);
      GrowsThrough(Reached(config, moves), Reached(config, moves + init), Reached(config, all));
    }
  }
}
