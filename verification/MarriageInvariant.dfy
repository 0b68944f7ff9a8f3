// Why the audit never fires: an invariant stronger than the audit, kept by
// every command. First what keeps cards, seats and history in order, then one
// section a command: a shape lemma says what an accepted command commits, and a
// keeps lemma that the invariant survives it.
module MarriageInvariant {
  import opened Prelude
  import opened Cards
  import opened MarriageCards
  import opened MarriageModels
  import opened MarriageCompletion
  import opened MarriageSolver
  import opened MarriageFinder
  import opened MarriageState
  import opened MarriageAudit
  import opened MarriageSteps

  // Two facts the audit does not look at: no declaration is outstanding once a
  // card was drawn, and without an indicator none was ever revealed.
  ghost predicate Unaudited(s: GameState) {
    && (s.status == InProgress && DrawStarted(s.history) ==> !DeclarationsPending(s))
    && (s.tiplu.None? ==> Indicators(s.history) == [])
  }

  ghost predicate Inv(s: GameState) {
    Formed(s) && Audit(s) && Unaudited(s)
  }

  lemma InvAudits(s: GameState)
    requires Inv(s)
    ensures Formed(s) && Audit(s)
  {
  }

  // ---- cards

  lemma NoDupFromCounts(s: seq<PhysicalCard>)
    requires forall x :: multiset(s)[x] <= 1
    ensures NoDup(s)
  {
    NoDupCounts(s);
  }

  // No physical card is in two places.
  lemma ConservedApart(s: GameState, seat: nat)
    requires Conserved(s.players, s.stock, s.discard, s.tiplu) && seat < |s.players|
    ensures NoDup(s.players[seat].hand)
    ensures forall c :: c in s.players[seat].hand ==>
              Canonical(c) && c !in s.stock && c !in s.discard && s.tiplu != Some(c)
  {
    ConservedIsPermutation(s.players, s.stock, s.discard, s.tiplu);
    DeckIsCanonical();
    NoDupCounts(CreateDeck());
    HandsContain(s.players, seat);
    var hand := multiset(s.players[seat].hand);
    var all := Holdings(s.players, s.stock, s.discard, s.tiplu);
    forall x ensures hand[x] + multiset(s.stock)[x] + multiset(s.discard)[x] + multiset(Indicator(s.tiplu))[x] <= 1 {
      assert hand[x] <= multiset(Hands(s.players))[x];
      assert all[x] <= 1;
    }
    NoDupFromCounts(s.players[seat].hand);
    forall c | c in s.players[seat].hand
      ensures Canonical(c) && c !in s.stock && c !in s.discard && s.tiplu != Some(c)
    {
      assert hand[c] >= 1;
      assert multiset(s.stock)[c] == 0 && multiset(s.discard)[c] == 0 && multiset(Indicator(s.tiplu))[c] == 0;
      assert s.tiplu == Some(c) ==> multiset(Indicator(s.tiplu)) == multiset{c};
      assert c in all;
      assert c in multiset(CreateDeck());
    }
  }

  ghost function Piles(stock: seq<PhysicalCard>, discard: seq<PhysicalCard>,
    tiplu: Option<PhysicalCard>): multiset<PhysicalCard> {
    multiset(stock) + multiset(discard) + multiset(Indicator(tiplu))
  }

  // Moving cards between one hand and the piles keeps the deck whole.
  lemma MoveConserves(s: GameState, seat: nat, p: PlayerState, stock: seq<PhysicalCard>, discard: seq<PhysicalCard>,
                      tiplu: Option<PhysicalCard>)
    requires Conserved(s.players, s.stock, s.discard, s.tiplu) && seat < |s.players|
    requires multiset(p.hand) + Piles(stock, discard, tiplu) ==
             multiset(s.players[seat].hand) + Piles(s.stock, s.discard, s.tiplu)
    ensures Conserved(s.players[seat := p], stock, discard, tiplu)
  {
    hide Conserved, Hands;
    ConservedIsPermutation(s.players, s.stock, s.discard, s.tiplu);
    ConservedIsPermutation(s.players[seat := p], stock, discard, tiplu);
    HandsUpdate(s.players, seat, p);
    var was, now := multiset(Hands(s.players)), multiset(Hands(s.players[seat := p]));
    var before := Holdings(s.players, s.stock, s.discard, s.tiplu);
    var after := Holdings(s.players[seat := p], stock, discard, tiplu);
    forall x ensures after[x] == before[x] {
      assert (multiset(p.hand) + Piles(stock, discard, tiplu))[x] ==
             (multiset(s.players[seat].hand) + Piles(s.stock, s.discard, s.tiplu))[x];
      assert (now + multiset(s.players[seat].hand))[x] == (was + multiset(p.hand))[x];
    }
  }

  lemma {:induction false} WithoutOne(cards: seq<PhysicalCard>, c: PhysicalCard)
    requires NoDup(cards) && c in cards
    ensures multiset(Without(cards, {c})) + multiset{c} == multiset(cards)
    ensures |Without(cards, {c})| == |cards| - 1
  {
    var rest := cards[1..];
    assert cards == [cards[0]] + rest;
    if cards[0] == c {
      assert c !in rest by {
        forall i | 0 <= i < |rest| ensures rest[i] != c { assert cards[i + 1] != cards[0]; }
      }
      WithoutNone(rest, c);
    } else {
      WithoutOne(rest, c);
      assert Without(cards, {c}) == [cards[0]] + Without(rest, {c});
    }
  }

  lemma {:induction false} WithoutNone(cards: seq<PhysicalCard>, c: PhysicalCard)
    requires c !in cards
    ensures Without(cards, {c}) == cards
  {
    if cards != [] {
      WithoutNone(cards[1..], c);
      assert cards == [cards[0]] + cards[1..];
    }
  }

  // ---- seats

  // The seat's declarations, route and locked cards are as before.
  predicate KeepsHoldings(p: PlayerState, q: PlayerState) {
    && q.id == p.id && q.route == p.route && q.shownMelds == p.shownMelds && q.committed == p.committed
    && q.hasSeenMaal == p.hasSeenMaal && q.tunnelaDeclared == p.tunnelaDeclared
       && q.initialTunnelas == p.initialTunnelas
    && NoDup(q.hand)
    && forall c :: c in p.hand && Locked(p, c) ==> c in q.hand
  }

  lemma HoldingsKept(p: PlayerState, q: PlayerState, rules: Rules, tiplu: Option<PhysicalCard>,
    later: Option<PhysicalCard>)
    requires PlayerFormed(p) && KeepsHoldings(p, q)
    requires TunnelasOk(p, rules) && RouteOk(p, rules, tiplu)
    requires tiplu.Some? ==> later.Some?
    ensures PlayerFormed(q) && TunnelasOk(q, rules) && RouteOk(q, rules, later)
  {
    hide ValidMeld, NoDup, Permitted, InInitialTunnela;
    LockedOwned(p, rules);
    forall c | c in p.committed ensures c in q.hand {}
    forall k | 0 <= k < |p.initialTunnelas| ensures ValidMeld(q, p.initialTunnelas[k], rules, true) {
      MeldIdsContain(p.initialTunnelas, k);
      TunnelaLocked(p, k);
      ValidMeldKept(p, q, p.initialTunnelas[k], rules);
    }
    if p.route != Unqualified {
      forall k | 0 <= k < |p.shownMelds| ensures ValidMeld(q, p.shownMelds[k], rules, true) {
        MeldIdsContain(p.shownMelds, k);
        ValidMeldKept(p, q, p.shownMelds[k], rules);
      }
    }
  }

  lemma TunnelaLocked(p: PlayerState, k: nat)
    requires k < |p.initialTunnelas|
    ensures forall c :: c in p.initialTunnelas[k].ids ==> Locked(p, c)
  {
    MeldIdsContain(p.initialTunnelas, k);
  }

  lemma LockedOwned(p: PlayerState, rules: Rules)
    requires PlayerFormed(p) && TunnelasOk(p, rules)
    ensures forall k, c :: 0 <= k < |p.initialTunnelas| && c in p.initialTunnelas[k].ids ==> c in p.hand
    ensures forall c :: c in p.committed ==> c in p.hand
  {
    forall k, c | 0 <= k < |p.initialTunnelas| && c in p.initialTunnelas[k].ids ensures c in p.hand {
      assert ValidMeld(p, p.initialTunnelas[k], rules, true);
    }
  }

  lemma SameHoldings(p: PlayerState, q: PlayerState)
    requires PlayerFormed(p) && q.hand == p.hand
    requires q.id == p.id && q.route == p.route && q.shownMelds == p.shownMelds && q.committed == p.committed
    requires q.hasSeenMaal == p.hasSeenMaal && q.tunnelaDeclared == p.tunnelaDeclared
             && q.initialTunnelas == p.initialTunnelas
    ensures KeepsHoldings(p, q)
  {
  }

  // ---- history

  // New events continue the numbering inside one new revision.
  predicate Continues(s: GameState, events: seq<Event>) {
    && events != []
    && forall i :: 0 <= i < |events| ==>
         events[i].sequence == |s.history| + 1 + i && events[i].revision == s.revision + 1
  }

  predicate Quiet(events: seq<Event>) {
    forall i :: 0 <= i < |events| ==> !events[i].TunnelasDeclared? && !events[i].TipluRevealed?
  }

  lemma {:induction false} OrderedGrows(history: seq<Event>, events: seq<Event>, revision: nat)
    requires EventsOrdered(history)
    requires LastRevision(history) == revision
    requires forall i :: 0 <= i < |events| ==>
               events[i].sequence == |history| + 1 + i && events[i].revision == revision + 1
    ensures EventsOrdered(history + events)
    ensures events != [] ==> LastRevision(history + events) == revision + 1
  {
    if events == [] {
      assert history + events == history;
    } else {
      var before, last := events[..|events| - 1], events[|events| - 1];
      OrderedGrows(history, before, revision);
      assert history + events == (history + before) + [last];
      if before == [] { assert history + before == history; }
      HistoryNext(history + before, last, true);
    }
  }

  lemma {:induction false} QuietGrows(history: seq<Event>, events: seq<Event>, ruleOn: bool)
    requires Quiet(events)
    ensures DeclaredBeforeDraw(history, ruleOn) ==> DeclaredBeforeDraw(history + events, ruleOn)
    ensures Indicators(history + events) == Indicators(history)
    ensures forall id :: Declarations(history + events, id) == Declarations(history, id)
    ensures DrawStarted(history + events) ==>
            DrawStarted(history) || exists i :: 0 <= i < |events| && events[i].CardDrawn?
  {
    if events == [] {
      assert history + events == history;
    } else {
      var before, last := events[..|events| - 1], events[|events| - 1];
      QuietGrows(history, before, ruleOn);
      assert history + events == (history + before) + [last];
      HistoryNext(history + before, last, ruleOn);
      forall id ensures Declarations(history + events, id) == Declarations(history + before, id) {
        DeclarationsNext(history + before, last, id);
      }
    }
  }

  lemma DeclarationsNext(history: seq<Event>, last: Event, id: string)
    ensures Declarations(history + [last], id) ==
            Declarations(history, id) + if last.TunnelasDeclared? && last.player == id then [last] else []
  {
    assert (history + [last])[..|history|] == history;
  }

  // A commit whose events are quiet keeps the history in order.
  lemma QuietHistory(s: GameState, t: GameState, events: seq<Event>)
    requires HistoryOk(s) && Continues(s, events) && Quiet(events)
    requires t.history == s.history + events && t.revision == s.revision + 1
    requires t.config == s.config && (s.tiplu.Some? ==> t.tiplu == s.tiplu)
    ensures HistoryOk(t) && Indicators(t.history) == Indicators(s.history)
    ensures forall id :: Declarations(t.history, id) == Declarations(s.history, id)
  {
    OrderedGrows(s.history, events, s.revision);
    QuietGrows(s.history, events, s.config.rules.scoring.initialTunnelaDeclaration);
  }

  // ---- one seat through a commit

  lemma SeatKept(s: GameState, t: GameState, seat: nat)
    requires seat < |s.players| && seat < |t.players| && SeatOk(s, seat)
    requires t.config == s.config && (s.tiplu.Some? ==> t.tiplu.Some?)
    requires KeepsHoldings(s.players[seat], t.players[seat])
    requires HandSizeOk(t.players[seat], Extra(t, seat), t.wonByFold)
    requires Declarations(t.history, s.players[seat].id) == Declarations(s.history, s.players[seat].id)
    ensures SeatOk(t, seat)
  {
    hide TunnelasOk, RouteOk, PlayerFormed, Declarations;
    HoldingsKept(s.players[seat], t.players[seat], s.config.rules, s.tiplu, t.tiplu);
  }

  lemma SeatUntouched(s: GameState, t: GameState, seat: nat)
    requires seat < |s.players| && seat < |t.players| && SeatOk(s, seat)
    requires t.config == s.config && (s.tiplu.Some? ==> t.tiplu.Some?) && t.wonByFold == s.wonByFold
    requires t.players[seat] == s.players[seat]
    requires s.players[seat].folded || Extra(t, seat) == Extra(s, seat)
    requires Declarations(t.history, s.players[seat].id) == Declarations(s.history, s.players[seat].id)
    ensures SeatOk(t, seat)
  {
    hide TunnelasOk, RouteOk, Declarations;
    SameHoldings(s.players[seat], t.players[seat]);
    SeatKept(s, t, seat);
  }

  // A commit that changes one seat and leaves the round in progress.
  lemma Advance(s: GameState, t: GameState, seat: nat, q: PlayerState)
    requires Inv(s) && s.status == InProgress && seat < |s.players| && q.id == s.players[seat].id
    requires t.config == s.config && t.players == s.players[seat := q] && t.status == InProgress
    requires t.winner.None? && t.winningPair == [] && t.normalFinish.None? && !t.wonByFold && !q.finished
    requires TurnOk(t) && !t.players[t.currentSeat.value].folded && ActiveCount(t.players) >= 2
    requires StandardIndicator(t.tiplu) && Conserved(t.players, t.stock, t.discard, t.tiplu)
    requires PlayerFormed(q) && TunnelasOk(q, s.config.rules) && RouteOk(q, s.config.rules, t.tiplu)
    requires DeclarationMatches(Declarations(t.history, q.id), q) && HandSizeOk(q, Extra(t, seat), false)
    requires forall k :: 0 <= k < |s.players| && k != seat ==>
               (s.players[k].folded || Extra(t, k) == Extra(s, k))
    requires forall k :: 0 <= k < |s.players| && k != seat ==>
               Declarations(t.history, s.players[k].id) == Declarations(s.history, s.players[k].id)
    requires HistoryOk(t) && IndicatorSeen(t) && Unaudited(t) && (s.tiplu.Some? ==> t.tiplu.Some?)
    requires t.mustFinish ==>
               t.phase == Some(MustDiscard)
               && PlayerFormed(t.players[t.currentSeat.value]) && EighthPair(t.players[t.currentSeat.value]) != []
    ensures Inv(t)
  {
    hide TunnelasOk, RouteOk, Declarations, HistoryOk, Conserved, EighthPair, PlayerFormed, ConfigFormed,
      DeclarationMatches;
    forall k | 0 <= k < |t.players| ensures SeatOk(t, k) {
      assert SeatOk(s, k);
      if k != seat { SeatUntouched(s, t, k); }
    }
    forall k | 0 <= k < |t.players| ensures PlayerFormed(t.players[k]) && !t.players[k].finished {
      assert SeatOk(t, k);
    }
  }

  // ---- draw_card

  // Unique ids: the player whose turn it is sits in the current seat.
  lemma TurnIs(s: GameState, id: string, phase: TurnPhase, finishing: bool)
    requires Inv(s) && RequireTurn(s, id, phase, finishing).Seat?
    ensures var seat := RequireTurn(s, id, phase, finishing).seat;
            && s.status == InProgress && TurnOk(s) && seat == s.currentSeat.value
            && s.players[seat].id == id && !s.players[seat].folded && s.phase == Some(phase)
            && !DeclarationsPending(s) && (s.mustFinish ==> finishing)
            && PlayerFormed(s.players[seat]) && SeatOk(s, seat)
            && RosterOk(s.config, s.players) && ConfigFormed(s.config)
            && |s.players| >= 2 && ActiveCount(s.players) >= 2 && s.normalFinish.None?
  {
    hide SeatOk, HistoryOk, Conserved, ForcedOk, PlayerFormed;
    var seat := RequireTurn(s, id, phase, finishing).seat;
    var ids := s.config.playerIds;
    assert ids[seat] == ids[s.currentSeat.value];
  }

  // The card drawn and the piles it leaves.
  lemma DrawnCard(s: GameState, source: DrawSource, shuffle: seq<PhysicalCard> -> seq<PhysicalCard>, p: PlayerState)
    returns (card: PhysicalCard, stock: seq<PhysicalCard>, discard: seq<PhysicalCard>)
    requires Shuffles(shuffle) && SourceBlock(s, p, source).None?
    ensures var (pile, rest) := Recycled(s, shuffle);
            if source == Stock then pile != [] && card == pile[|pile| - 1] && stock == pile[..|pile| - 1] && discard == rest
            else s.discard != [] && card == s.discard[|s.discard| - 1] && stock == s.stock
                 && discard == s.discard[..|s.discard| - 1]
    ensures multiset(stock) + multiset(discard) + multiset{card} == multiset(s.stock) + multiset(s.discard)
  {
    if source == Stock {
      var (pile, rest) := Recycled(s, shuffle);
      if s.stock == [] {
        var older := s.discard[..|s.discard| - 1];
        assert multiset(shuffle(older)) == multiset(older);
        assert |shuffle(older)| == |multiset(shuffle(older))| == |multiset(older)| == |older|;
        assert s.discard == older + s.discard[|s.discard| - 1..];
      }
      card, stock, discard := pile[|pile| - 1], pile[..|pile| - 1], rest;
      assert pile == stock + [card];
    } else {
      card, stock, discard := s.discard[|s.discard| - 1], s.stock, s.discard[..|s.discard| - 1];
      assert s.discard == discard + [card];
    }
  }

  lemma SameLength(shuffle: seq<PhysicalCard> -> seq<PhysicalCard>)
    requires Shuffles(shuffle)
    ensures forall cards :: |shuffle(cards)| == |cards|
  {
    forall cards ensures |shuffle(cards)| == |cards| {
      assert |multiset(shuffle(cards))| == |multiset(cards)|;
    }
  }

  // Taking a card from a pile into the hand.
  lemma TakeCard(s: GameState, seat: nat, card: PhysicalCard, stock: seq<PhysicalCard>, discard: seq<PhysicalCard>)
    requires Formed(s) && RosterOk(s.config, s.players) && StandardIndicator(s.tiplu)
    requires Conserved(s.players, s.stock, s.discard, s.tiplu) && seat < |s.players| && SeatOk(s, seat)
    requires multiset(stock) + multiset(discard) + multiset{card} == multiset(s.stock) + multiset(s.discard)
    ensures var p := s.players[seat];
            var q := p.(hand := p.hand + [card]);
            && Conserved(s.players[seat := q], stock, discard, s.tiplu)
            && card !in p.hand && KeepsHoldings(p, q)
            && PlayerFormed(q) && TunnelasOk(q, s.config.rules) && RouteOk(q, s.config.rules, s.tiplu)
  {
    hide TunnelasOk, RouteOk;
    var p := s.players[seat];
    var q := p.(hand := p.hand + [card]);
    var now, was := multiset(q.hand) + Piles(stock, discard, s.tiplu), multiset(p.hand) + Piles(s.stock, s.discard, s.tiplu);
    forall x ensures now[x] == was[x] {
      assert (multiset(stock) + multiset(discard) + multiset{card})[x] == (multiset(s.stock) + multiset(s.discard))[x];
    }
    MoveConserves(s, seat, q, stock, discard, s.tiplu);
    ConservedApart(s.(players := s.players[seat := q], stock := stock, discard := discard), seat);
    NoDupConcat(p.hand, [card]);
    assert card in Elems([card]);
    HoldingsKept(p, q, s.config.rules, s.tiplu, s.tiplu);
  }

  // What an accepted draw commits.
  lemma DrawShape(s: GameState, id: string, source: DrawSource, shuffle: seq<PhysicalCard> -> seq<PhysicalCard>)
    returns (t: GameState, card: PhysicalCard)
    requires Inv(s) && Shuffles(shuffle)
    requires forall cards :: |shuffle(cards)| == |cards|
    requires Draw(s, id, source, shuffle).Accepted?
    ensures var r := Draw(s, id, source, shuffle);
            && t == Commit(s, r.candidate, r.events)
            && Continues(s, r.events) && Quiet(r.events) && t.history == s.history + r.events
    ensures s.status == InProgress && TurnOk(s)
    ensures var seat := s.currentSeat.value;
            var p := s.players[seat];
            && RequireTurn(s, id, MustDraw, false) == Seat(seat)
            && multiset(t.stock) + multiset(t.discard) + multiset{card} == multiset(s.stock) + multiset(s.discard)
            && t == s.(players := s.players[seat := p.(hand := p.hand + [card])], stock := t.stock,
               discard := t.discard,
                       phase := Some(MustDiscard), mustFinish := t.mustFinish, revision := s.revision + 1, history := t.history)
            && (t.mustFinish ==>
                  && p.route == DubleeRoute && s.discard != [] && card == s.discard[|s.discard| - 1]
                  && SourceBlock(s, p, Discard).None? && !s.config.rules.dubleePlayerCanDrawDiscard)
  {
    hide Inv, SeatOk, PlayerFormed, WinningDiscard, RosterOk, ActiveCount, DeclarationsPending, RequireTurn,
      WithPlayer, Shuffles;
    var r := Draw(s, id, source, shuffle);
    TurnIs(s, id, MustDraw, false);
    var seat := s.currentSeat.value;
    var stock, discard;
    card, stock, discard := DrawnCard(s, source, shuffle, s.players[seat]);
    OneSeat(s, seat, s.players[seat].(hand := s.players[seat].hand + [card]));
    t := Commit(s, r.candidate, r.events);
  }

  lemma DrawKeeps(s: GameState, id: string, source: DrawSource, shuffle: seq<PhysicalCard> -> seq<PhysicalCard>)
    requires Inv(s) && Shuffles(shuffle)
    requires forall cards :: |shuffle(cards)| == |cards|
    requires Draw(s, id, source, shuffle).Accepted?
    ensures var r := Draw(s, id, source, shuffle); Inv(Commit(s, r.candidate, r.events))
  {
    hide TunnelasOk, RouteOk, Declarations, HistoryOk, Conserved, EighthPair, PlayerFormed, WinningDiscard;
    hide Draw, Commit, Continues, Quiet, SourceBlock, Indicators, DrawStarted, ActiveCount, Shuffles;
    var t, card := DrawShape(s, id, source, shuffle);
    var r := Draw(s, id, source, shuffle);
    TurnIs(s, id, MustDraw, false);
    var seat := s.currentSeat.value;
    var p := s.players[seat];
    var q := p.(hand := p.hand + [card]);
    TakeCard(s, seat, card, t.stock, t.discard);
    ActiveCountUpdate(s.players, seat, q);
    QuietHistory(s, t, r.events);
    SeenKept(s, t, seat);
    if t.mustFinish {
      MustFinishAfter(s, p, card);
    }
    PendingKept(s, t, seat);
    Advance(s, t, seat, q);
  }

  lemma SeenKept(s: GameState, t: GameState, seat: nat)
    requires IndicatorSeen(s) && seat < |s.players| && |t.players| == |s.players|
    requires forall k :: 0 <= k < |s.players| && k != seat ==> t.players[k] == s.players[k]
    requires s.players[seat].hasSeenMaal ==> t.players[seat].hasSeenMaal
    requires t.tiplu == s.tiplu
    ensures IndicatorSeen(t)
  {
    if s.tiplu.Some? {
      var i :| 0 <= i < |s.players| && s.players[i].hasSeenMaal;
      assert t.players[i].hasSeenMaal;
    }
  }

  // Declarations never become outstanding again.
  lemma PendingKept(s: GameState, t: GameState, seat: nat)
    requires !DeclarationsPending(s) && s.status == InProgress && t.config == s.config
    requires seat < |s.players| && |t.players| == |s.players|
    requires forall k :: 0 <= k < |s.players| && k != seat ==> t.players[k] == s.players[k]
    requires s.players[seat].folded ==> t.players[seat].folded
    requires s.players[seat].tunnelaDeclared ==> t.players[seat].tunnelaDeclared
    ensures !DeclarationsPending(t)
  {
    forall i | 0 <= i < |t.players| && s.config.rules.scoring.initialTunnelaDeclaration
      ensures t.players[i].tunnelaDeclared || t.players[i].folded
    {
      assert s.players[i].tunnelaDeclared || s.players[i].folded;
    }
  }

  lemma MustFinishAfter(s: GameState, p: PlayerState, card: PhysicalCard)
    requires PlayerFormed(p) && !p.folded && card !in p.hand && RouteOk(p, s.config.rules, s.tiplu)
    requires p.route == DubleeRoute && s.discard != [] && card == s.discard[|s.discard| - 1]
    requires SourceBlock(s, p, Discard).None? && !s.config.rules.dubleePlayerCanDrawDiscard
    ensures PlayerFormed(p.(hand := p.hand + [card])) && EighthPair(p.(hand := p.hand + [card])) != []
  {
    hide EighthPair, PlayerFormed, WinningDiscard;
    WinningDiscardFinishes(p, card);
  }

  // ---- discard_card

  // Putting an unlocked card on the discard pile.
  lemma PutCard(s: GameState, seat: nat, card: PhysicalCard)
    requires Formed(s) && RosterOk(s.config, s.players) && StandardIndicator(s.tiplu)
    requires Conserved(s.players, s.stock, s.discard, s.tiplu) && seat < |s.players| && SeatOk(s, seat)
    requires card in s.players[seat].hand && !Locked(s.players[seat], card)
    ensures var p := s.players[seat];
            var q := p.(hand := Without(p.hand, {card}));
            && Conserved(s.players[seat := q], s.stock, s.discard + [card], s.tiplu)
            && |q.hand| == |p.hand| - 1 && KeepsHoldings(p, q)
            && PlayerFormed(q) && TunnelasOk(q, s.config.rules) && RouteOk(q, s.config.rules, s.tiplu)
  {
    hide TunnelasOk, RouteOk, Conserved, RosterOk;
    var p := s.players[seat];
    var q := p.(hand := Without(p.hand, {card}));
    WithoutOne(p.hand, card);
    WithoutNoDup(p.hand, {card});
    var now, was := multiset(q.hand) + Piles(s.stock, s.discard + [card], s.tiplu),
                  multiset(p.hand) + Piles(s.stock, s.discard, s.tiplu);
    forall x ensures now[x] == was[x] {
      assert (multiset(q.hand) + multiset{card})[x] == multiset(p.hand)[x];
    }
    MoveConserves(s, seat, q, s.stock, s.discard + [card], s.tiplu);
    HoldingsKept(p, q, s.config.rules, s.tiplu, s.tiplu);
  }

  lemma DiscardShape(s: GameState, id: string, card: CardId) returns (t: GameState)
    requires Inv(s) && DiscardCard(s, id, card).Accepted?
    ensures var r := DiscardCard(s, id, card);
            && t == Commit(s, r.candidate, r.events)
            && Continues(s, r.events) && Quiet(r.events) && t.history == s.history + r.events
            && DrawStarted(t.history) == DrawStarted(s.history)
    ensures s.status == InProgress && TurnOk(s)
    ensures var seat := s.currentSeat.value;
            var p := s.players[seat];
            && RequireTurn(s, id, MustDiscard, false) == Seat(seat)
            && card in p.hand && !Locked(p, card)
            && t == s.(players := s.players[seat := p.(hand := Without(p.hand, {card}))], discard := s.discard + [card],
                       currentSeat := t.currentSeat, phase := Some(MustDraw), revision := s.revision + 1, history := t.history)
            && t.currentSeat.Some? && t.currentSeat.value < |t.players| && !t.players[t.currentSeat.value].folded
  {
    hide Inv, SeatOk, PlayerFormed, RosterOk, ActiveCount, DeclarationsPending, WithPlayer;
    var r := DiscardCard(s, id, card);
    TurnIs(s, id, MustDiscard, false);
    var seat := s.currentSeat.value;
    OneSeat(s, seat, s.players[seat].(hand := Without(s.players[seat].hand, {card})));
    t := Commit(s, r.candidate, r.events);
    NoDrawAdded(s.history, r.events);
  }

  // Events without a draw do not start drawing.
  lemma {:induction false} NoDrawAdded(history: seq<Event>, events: seq<Event>)
    requires forall i :: 0 <= i < |events| ==> !events[i].CardDrawn?
    ensures DrawStarted(history + events) == DrawStarted(history)
  {
    if events == [] {
      assert history + events == history;
    } else {
      var before, last := events[..|events| - 1], events[|events| - 1];
      NoDrawAdded(history, before);
      assert history + events == (history + before) + [last];
      HistoryNext(history + before, last, true);
    }
  }

  lemma DiscardKeeps(s: GameState, id: string, card: CardId)
    requires Inv(s) && DiscardCard(s, id, card).Accepted?
    ensures var r := DiscardCard(s, id, card); Inv(Commit(s, r.candidate, r.events))
  {
    hide TunnelasOk, RouteOk, Declarations, HistoryOk, Conserved, EighthPair, PlayerFormed;
    hide DiscardCard, Commit, Continues, Quiet, Indicators, DrawStarted, ActiveCount;
    var t := DiscardShape(s, id, card);
    var r := DiscardCard(s, id, card);
    TurnIs(s, id, MustDiscard, false);
    var seat := s.currentSeat.value;
    var p := s.players[seat];
    var q := p.(hand := Without(p.hand, {card}));
    PutCard(s, seat, card);
    ActiveCountUpdate(s.players, seat, q);
    QuietHistory(s, t, r.events);
    SeenKept(s, t, seat);
    PendingKept(s, t, seat);
    Advance(s, t, seat, q);
  }

  // ---- show_initial_melds and show_dublees

  lemma SelectionConserves(stock: seq<PhysicalCard>, discard: seq<PhysicalCard>,
    shuffle: seq<PhysicalCard> -> seq<PhysicalCard>)
    requires Shuffles(shuffle) && SelectTiplu(stock, discard, shuffle).Selected?
    ensures var r := SelectTiplu(stock, discard, shuffle);
            && r.tiplu.Standard?
            && multiset(r.stock) + multiset(r.discard) + multiset{r.tiplu} == multiset(stock) + multiset(discard)
  {
    var refill := LastStandard(stock).None? && |discard| >= 2;
    var older := if refill then shuffle(discard[..|discard| - 1]) else [];
    var rest := if refill then discard[|discard| - 1..] else discard;
    var pile := older + stock;
    var index := LastStandard(pile).value;
    RemoveAt(pile, index);
    if refill { SplitTop(discard, shuffle); }
    Regroup(multiset(older), multiset(stock), multiset(pile[..index] + pile[index + 1..]),
        multiset{pile[index]}, multiset(rest));
  }

  lemma RemoveAt(pile: seq<PhysicalCard>, i: nat)
    requires i < |pile|
    ensures multiset(pile) == multiset(pile[..i] + pile[i + 1..]) + multiset{pile[i]}
  {
    assert pile == pile[..i] + [pile[i]] + pile[i + 1..];
  }

  lemma SplitTop(discard: seq<PhysicalCard>, shuffle: seq<PhysicalCard> -> seq<PhysicalCard>)
    requires Shuffles(shuffle) && discard != []
    ensures multiset(discard) == multiset(shuffle(discard[..|discard| - 1])) + multiset(discard[|discard| - 1..])
  {
    assert discard == discard[..|discard| - 1] + discard[|discard| - 1..];
  }

  lemma Regroup<T>(older: multiset<T>, stock: multiset<T>, left: multiset<T>, taken: multiset<T>, rest: multiset<T>)
    requires older + stock == left + taken
    ensures left + rest + taken == stock + (older + rest)
  {
    forall x ensures (left + rest + taken)[x] == (stock + (older + rest))[x] {
      assert (older + stock)[x] == (left + taken)[x];
    }
  }

  // The player a show qualifies.
  function Qualified(p: PlayerState, route: Route, melds: seq<Meld>): PlayerState {
    p.(route := route, shownMelds := melds, committed := Elems(MeldIds(melds)), hasSeenMaal := true)
  }

  lemma QualifiedOk(p: PlayerState, route: Route, melds: seq<Meld>, rules: Rules, tiplu: PhysicalCard)
    requires PlayerFormed(p) && TunnelasOk(p, rules) && p.route == Unqualified && route != Unqualified
    requires ValidDeclaration(p, melds, route, rules, false)
    ensures var q := Qualified(p, route, melds);
            PlayerFormed(q) && TunnelasOk(q, rules) && RouteOk(q, rules, Some(tiplu))
  {
    var q := Qualified(p, route, melds);
    hide NoDup, Permitted, MeldIds;
    forall k | 0 <= k < |melds| ensures ValidMeld(q, melds[k], rules, true) && melds[k].ids != [] {
      MeldNowShown(p, q, melds[k], rules);
    }
    forall k | 0 <= k < |p.initialTunnelas| ensures ValidMeld(q, p.initialTunnelas[k], rules, true) {
      ValidMeldKept(p, q, p.initialTunnelas[k], rules);
    }
    MeldIdsContain(melds, 0);
    assert melds[0].ids[0] in MeldIds(melds);
    hide ValidMeld;
    forall c | c in MeldIds(melds) ensures c in p.hand {
      var k := FindMeld(melds, c);
      MeldOwned(p, melds[k], rules);
    }
  }

  lemma MeldNowShown(p: PlayerState, q: PlayerState, meld: Meld, rules: Rules)
    requires ValidMeld(p, meld, rules, false) && q.hand == p.hand
    ensures ValidMeld(q, meld, rules, true) && meld.ids != []
  {
  }

  lemma MeldOwned(p: PlayerState, meld: Meld, rules: Rules)
    requires ValidMeld(p, meld, rules, false)
    ensures forall i :: i in meld.ids ==> i in p.hand
  {
  }

  // What an accepted show is made of.
  lemma ShowParts(s: GameState, id: string, melds: seq<Meld>, route: Route,
    shuffle: seq<PhysicalCard> -> seq<PhysicalCard>)
    requires route != Unqualified && Show(s, id, melds, route, shuffle).Accepted?
    ensures var turn := RequireTurn(s, id, MustDiscard, false);
            var selection := ShowSelection(s, shuffle);
            && turn.Seat? && selection.Selected?
            && s.players[turn.seat].route == Unqualified
            && ValidDeclaration(s.players[turn.seat], melds, route, s.config.rules, false)
            && Show(s, id, melds, route, shuffle) == Accepted(
                 s.(players := WithPlayer(s.players, id, Qualified(s.players[turn.seat], route, melds)),
                     tiplu := Some(selection.tiplu),
                    stock := selection.stock, discard := selection.discard),
                 ShowEvents(s, id, melds, route, selection))
  {
    hide RequireTurn, ValidDeclaration, ShowSelection, ShowEvents, WithPlayer;
  }

  lemma ShowShape(s: GameState, id: string, melds: seq<Meld>, route: Route,
    shuffle: seq<PhysicalCard> -> seq<PhysicalCard>)
    returns (t: GameState)
    requires Inv(s) && Shuffles(shuffle) && route != Unqualified
    requires Show(s, id, melds, route, shuffle).Accepted?
    ensures var r := Show(s, id, melds, route, shuffle);
            && t == Commit(s, r.candidate, r.events) && ShowSelection(s, shuffle).Selected?
            && t.history == s.history + ShowEvents(s, id, melds, route, ShowSelection(s, shuffle))
            && t.tiplu == Some(ShowSelection(s, shuffle).tiplu)
    ensures s.status == InProgress && TurnOk(s) && t.tiplu.Some? && t.tiplu.value.Standard?
    ensures var seat := s.currentSeat.value;
            var p := s.players[seat];
            && RequireTurn(s, id, MustDiscard, false) == Seat(seat)
            && p.route == Unqualified && ValidDeclaration(p, melds, route, s.config.rules, false)
            && (s.tiplu.Some? ==> t.tiplu == s.tiplu)
            && Piles(t.stock, t.discard, t.tiplu) == Piles(s.stock, s.discard, s.tiplu)
            && t == s.(players := s.players[seat := Qualified(p, route, melds)], tiplu := t.tiplu,
                       stock := t.stock, discard := t.discard, revision := s.revision + 1, history := t.history)
  {
    hide Inv, SeatOk, PlayerFormed, RosterOk, ActiveCount, DeclarationsPending, ValidDeclaration, Show,
      RequireTurn, ShowEvents;
    hide SelectTiplu, Shuffles, WithPlayer, NoDup, Formed, Audit;
    var r := Show(s, id, melds, route, shuffle);
    ShowParts(s, id, melds, route, shuffle);
    TurnIs(s, id, MustDiscard, false);
    StandardKept(s);
    var seat := s.currentSeat.value;
    OneSeat(s, seat, Qualified(s.players[seat], route, melds));
    if s.tiplu.None? {
      SelectionConserves(s.stock, s.discard, shuffle);
    }
    t := Commit(s, r.candidate, r.events);
  }

  lemma StandardKept(s: GameState)
    requires Inv(s) && s.status == InProgress
    ensures StandardIndicator(s.tiplu)
  {
    hide SeatOk, HistoryOk, PlayerFormed, RosterOk, ActiveCount, DeclarationsPending, Conserved, ForcedOk, ActiveOk;
  }

  lemma ShowHistory(s: GameState, t: GameState, id: string, melds: seq<Meld>, route: Route, selection: Selection)
    requires HistoryOk(s) && selection.Selected? && t.config == s.config && t.tiplu == Some(selection.tiplu)
    requires t.history == s.history + ShowEvents(s, id, melds, route, selection) && t.revision == s.revision + 1
    requires (s.tiplu.Some? ==> t.tiplu == s.tiplu) && (s.tiplu.None? ==> Indicators(s.history) == [])
    ensures HistoryOk(t) && DrawStarted(t.history) == DrawStarted(s.history)
    ensures forall k :: Declarations(t.history, k) == Declarations(s.history, k)
  {
    hide EventsOrdered, DeclaredBeforeDraw, DrawStarted, Indicators, Declarations, Kinds, IdGroups;
    var events := ShowEvents(s, id, melds, route, selection);
    var ruleOn := s.config.rules.scoring.initialTunnelaDeclaration;
    OrderedGrows(s.history, events, s.revision);
    NoDrawAdded(s.history, events);
    if s.tiplu.Some? {
      QuietGrows(s.history, events, ruleOn);
    } else {
      RevealHistory(s.history, events[..|events| - 2], events[|events| - 2], events[|events| - 1], ruleOn);
      assert events == events[..|events| - 2] + [events[|events| - 2], events[|events| - 1]];
    }
  }

  // Quiet events, one revelation, one more quiet event.
  lemma RevealHistory(history: seq<Event>, quiet: seq<Event>, revealed: Event, saw: Event, ruleOn: bool)
    requires Quiet(quiet) && revealed.TipluRevealed? && saw.PlayerSawMaal? && Indicators(history) == []
    ensures var h := history + (quiet + [revealed, saw]);
            && (DeclaredBeforeDraw(history, ruleOn) ==> DeclaredBeforeDraw(h, ruleOn))
            && Indicators(h) == [revealed.card]
            && forall k :: Declarations(h, k) == Declarations(history, k)
  {
    hide DeclaredBeforeDraw, Indicators, Declarations, EventsOrdered, DrawStarted;
    QuietGrows(history, quiet, ruleOn);
    var g := history + quiet;
    HistoryNext(g, revealed, ruleOn);
    HistoryNext(g + [revealed], saw, ruleOn);
    var h := history + (quiet + [revealed, saw]);
    assert h == g + [revealed] + [saw];
    forall k ensures Declarations(h, k) == Declarations(history, k) {
      DeclarationsNext(g, revealed, k);
      DeclarationsNext(g + [revealed], saw, k);
    }
  }

  lemma ShowKeeps(s: GameState, id: string, melds: seq<Meld>, route: Route,
    shuffle: seq<PhysicalCard> -> seq<PhysicalCard>)
    requires Inv(s) && Shuffles(shuffle) && route != Unqualified
    requires Show(s, id, melds, route, shuffle).Accepted?
    ensures var r := Show(s, id, melds, route, shuffle); Inv(Commit(s, r.candidate, r.events))
  {
    hide TunnelasOk, RouteOk, Declarations, HistoryOk, Conserved, EighthPair, PlayerFormed, ValidDeclaration;
    hide Show, Commit, ShowEvents, ShowSelection, Indicators, DrawStarted, ActiveCount, Shuffles, MeldIds, Elems;
    var t := ShowShape(s, id, melds, route, shuffle);
    TurnIs(s, id, MustDiscard, false);
    var seat := s.currentSeat.value;
    var p := s.players[seat];
    var q := Qualified(p, route, melds);
    QualifiedOk(p, route, melds, s.config.rules, t.tiplu.value);
    MoveConserves(s, seat, q, t.stock, t.discard, t.tiplu);
    ActiveCountUpdate(s.players, seat, q);
    ShowHistory(s, t, id, melds, route, ShowSelection(s, shuffle));
    assert IndicatorSeen(t) by { assert t.players[seat].hasSeenMaal; }
    PendingKept(s, t, seat);
    Advance(s, t, seat, q);
  }

  // ---- declare_tunnelas

  lemma {:induction false} NoTunnelaError(p: PlayerState, melds: seq<Meld>, k: nat, rules: Rules)
    requires k <= |melds| && TunnelaError(p, melds, k, rules).None?
    requires NoDup(MeldIds(melds[..k]))
    requires forall j :: 0 <= j < k ==> melds[j].kind == Tunnela && ValidMeld(p, melds[j], rules, false)
    ensures NoDup(MeldIds(melds))
    ensures forall j :: 0 <= j < |melds| ==> melds[j].kind == Tunnela && ValidMeld(p, melds[j], rules, false)
    decreases |melds| - k
  {
    hide ValidMeld, NoDup, MeldIds;
    if k < |melds| {
      MeldIdsNext(melds, k);
      ValidMeldDistinct(p, melds[k], rules, false);
      NoTunnelaError(p, melds, k + 1, rules);
    } else {
      assert melds[..k] == melds;
    }
  }

  function Declared(p: PlayerState, melds: seq<Meld>): PlayerState {
    p.(tunnelaDeclared := true, initialTunnelas := melds)
  }

  lemma DeclaredOk(p: PlayerState, melds: seq<Meld>, rules: Rules, tiplu: Option<PhysicalCard>)
    requires PlayerFormed(p) && RouteOk(p, rules, tiplu) && TunnelaError(p, melds, 0, rules).None?
    ensures var q := Declared(p, melds);
            PlayerFormed(q) && TunnelasOk(q, rules) && RouteOk(q, rules, tiplu)
  {
    var q := Declared(p, melds);
    hide ValidMeld;
    assert melds[..0] == [];
    NoTunnelaError(p, melds, 0, rules);
    NoDupSize(MeldIds(melds));
    forall k | 0 <= k < |melds| ensures ValidMeld(q, melds[k], rules, true) {
      MeldNowShown(p, q, melds[k], rules);
    }
    forall k | 0 <= k < |p.shownMelds| && ValidMeld(p, p.shownMelds[k], rules, true)
      ensures ValidMeld(q, p.shownMelds[k], rules, true)
    {
      StillValid(p, q, p.shownMelds[k], rules);
    }
  }

  lemma StillValid(p: PlayerState, q: PlayerState, meld: Meld, rules: Rules)
    requires ValidMeld(p, meld, rules, true) && q.hand == p.hand
    ensures ValidMeld(q, meld, rules, true)
  {
  }

  lemma EighthPairSame(p: PlayerState, q: PlayerState)
    requires PlayerFormed(p) && PlayerFormed(q)
    requires q.hand == p.hand && q.committed == p.committed && q.folded == p.folded
    requires q.route == p.route && |q.shownMelds| == |p.shownMelds|
    ensures EighthPair(q) == EighthPair(p)
  {
    hide PlayerFormed;
  }

  lemma DeclareShape(s: GameState, id: string, melds: seq<Meld>) returns (t: GameState, seat: nat)
    requires Inv(s) && Declare(s, id, melds).Accepted?
    ensures var r := Declare(s, id, melds); t == Commit(s, r.candidate, r.events)
    ensures s.status == InProgress && TurnOk(s) && seat < |s.players| && DeclarationsPending(s)
    ensures var p := s.players[seat];
            && p.id == id && !p.folded && !p.tunnelaDeclared && PlayerFormed(p) && SeatOk(s, seat)
            && TunnelaError(p, melds, 0, s.config.rules).None?
            && t == s.(players := s.players[seat := Declared(p, melds)], revision := s.revision + 1,
                       history := s.history + [TunnelasDeclared(|s.history| + 1, s.revision + 1, id, IdGroups(melds))])
  {
    hide SeatOk, HistoryOk, PlayerFormed, RosterOk, ActiveCount, DeclarationsPending, Conserved, ForcedOk, FinishedOk;
    var r := Declare(s, id, melds);
    seat := SeatOf(s.players, id).value;
    PendingMeans(s);
    OneSeat(s, seat, Declared(s.players[seat], melds));
    t := Commit(s, r.candidate, r.events);
  }

  lemma PendingMeans(s: GameState)
    ensures DeclarationsPending(s) ==> s.status == InProgress
  {
  }

  lemma DeclareHistory(s: GameState, t: GameState, event: Event)
    requires HistoryOk(s) && !DrawStarted(s.history) && s.config.rules.scoring.initialTunnelaDeclaration
    requires event.TunnelasDeclared? && event.sequence == |s.history| + 1 && event.revision == s.revision + 1
    requires t.config == s.config && t.tiplu == s.tiplu && t.revision == s.revision + 1
             && t.history == s.history + [event]
    ensures HistoryOk(t) && !DrawStarted(t.history) && Indicators(t.history) == Indicators(s.history)
    ensures forall id :: Declarations(t.history, id) == Declarations(s.history, id) + if event.player == id then [event] else []
  {
    HistoryNext(s.history, event, true);
    forall id ensures Declarations(t.history, id) == Declarations(s.history, id) + if event.player == id then
        [event] else [] {
      DeclarationsNext(s.history, event, id);
    }
  }

  lemma DeclareKeeps(s: GameState, id: string, melds: seq<Meld>)
    requires Inv(s) && Declare(s, id, melds).Accepted?
    ensures var r := Declare(s, id, melds); Inv(Commit(s, r.candidate, r.events))
  {
    hide TunnelasOk, RouteOk, Declarations, HistoryOk, Conserved, EighthPair, PlayerFormed;
    hide Declare, Commit, Indicators, DrawStarted, ActiveCount, TunnelaError;
    var t, seat := DeclareShape(s, id, melds);
    var p := s.players[seat];
    var q := Declared(p, melds);
    DeclaredOk(p, melds, s.config.rules, s.tiplu);
    MoveConserves(s, seat, q, s.stock, s.discard, s.tiplu);
    ActiveCountUpdate(s.players, seat, q);
    DeclareHistory(s, t, TunnelasDeclared(|s.history| + 1, s.revision + 1, id, IdGroups(melds)));
    SeenKept(s, t, seat);
    forall k | 0 <= k < |s.players| && k != seat ensures s.players[k].id != id {
      assert s.config.playerIds[k] != s.config.playerIds[seat];
    }
    if t.mustFinish && t.currentSeat.value == seat {
      EighthPairSame(p, q);
    }
    Advance(s, t, seat, q);
  }

  // ---- finish

  lemma FinishPermuted(p: PlayerState, before: PlayerState, tiplu: Option<PhysicalCard>, rules: Rules, w: NormalFinish)
    requires tiplu.Some? ==> tiplu.value.Standard?
    requires before == p.(hand := before.hand) && |before.hand| == |p.hand| && Elems(before.hand) == Elems(p.hand)
    requires ValidNormalFinish(p, tiplu, rules, w)
    ensures ValidNormalFinish(before, tiplu, rules, w)
  {
    hide CompletionMeld;
  }

  // The discard of a valid finish is an unlocked card of the hand.
  lemma FinishDiscard(p: PlayerState, tiplu: Option<PhysicalCard>, rules: Rules, w: NormalFinish)
    requires PlayerFormed(p) && (tiplu.Some? ==> tiplu.value.Standard?)
    requires ValidNormalFinish(p, tiplu, rules, w)
    ensures |p.hand| == 22 && !p.folded && p.route == Normal
    ensures w.discard in p.hand && !Locked(p, w.discard)
  {
    hide CompletionMeld;
    MeldIdsConcat(w.melds[..3], w.melds[3..]);
    assert w.melds == w.melds[..3] + w.melds[3..];
    assert w.discard in Elems(p.hand);
  }

  // A finished round with a winner in the current seat.
  lemma Conclude(s: GameState, t: GameState, seat: nat, q: PlayerState, events: seq<Event>)
    requires Inv(s) && s.status == InProgress && seat < |s.players| && s.currentSeat == Some(seat)
             && s.phase == Some(MustDiscard)
    requires t.config == s.config && t.players == s.players[seat := q] && t.status == Finished && !t.mustFinish
    requires t.currentSeat == s.currentSeat && t.phase == s.phase && !t.wonByFold && t.tiplu == s.tiplu
    requires q.finished && q.folded == s.players[seat].folded && KeepsHoldings(s.players[seat], q)
    requires Conserved(t.players, t.stock, t.discard, t.tiplu) && HandSizeOk(q, Extra(t, seat), false)
    requires Continues(s, events) && Quiet(events) && t.history == s.history + events && t.revision == s.revision + 1
    requires PlayerFormed(q)
    requires Formed(t) && TurnOk(t) && FinishedOk(t)
    ensures Inv(t)
  {
    hide TunnelasOk, RouteOk, Declarations, HistoryOk, Conserved, EighthPair, PlayerFormed, FinishedOk,
      ConfigFormed, DeclarationMatches;
    hide Continues, Quiet, Indicators, DrawStarted, HandSizeOk;
    QuietHistory(s, t, events);
    SameSeen(s, t, seat);
    forall k | 0 <= k < |t.players| ensures SeatOk(t, k) {
      assert SeatOk(s, k);
      if k == seat { SeatKept(s, t, k); } else { SeatUntouched(s, t, k); }
    }
  }

  lemma SameSeen(s: GameState, t: GameState, seat: nat)
    requires IndicatorSeen(s) && seat < |s.players| && t.tiplu == s.tiplu
    requires |t.players| == |s.players| && forall k :: 0 <= k < |s.players| && k != seat ==>
             t.players[k] == s.players[k]
    requires KeepsHoldings(s.players[seat], t.players[seat])
    ensures IndicatorSeen(t)
  {
    SeenKept(s, t, seat);
  }

  lemma FormedAfter(s: GameState, t: GameState, seat: nat, q: PlayerState)
    requires Formed(s) && seat < |s.players| && t.players
             == s.players[seat := q] && t.config == s.config && PlayerFormed(q)
    ensures Formed(t)
  {
    hide PlayerFormed;
  }

  lemma OnlyWinnerFinished(s: GameState, seat: nat, q: PlayerState)
    requires seat < |s.players| && q.finished && forall i :: 0 <= i < |s.players| ==> !s.players[i].finished
    ensures var after := s.players[seat := q]; forall i :: 0 <= i < |after| ==> (after[i].finished <==> i == seat)
  {
  }

  lemma NormalKeeps(s: GameState, id: string, w: NormalFinish)
    requires Inv(s) && RequireTurn(s, id, MustDiscard, true).Seat?
    requires var p := s.players[RequireTurn(s, id, MustDiscard, true).seat];
             ValidNormalFinish(p, s.tiplu, s.config.rules, w)
    ensures var p := s.players[RequireTurn(s, id, MustDiscard, true).seat];
            var r := FinishNormally(s, id, p, w);
            Inv(Commit(s, r.candidate, r.events))
  {
    hide TunnelasOk, RouteOk, Declarations, HistoryOk, Conserved, EighthPair, PlayerFormed, ValidNormalFinish,
      DeclarationsPending;
    hide Indicators, ActiveCount, Kinds, IdGroups;
    TurnIs(s, id, MustDiscard, true);
    var seat := s.currentSeat.value;
    var p := s.players[seat];
    var r := FinishNormally(s, id, p, w);
    FinishDiscard(p, s.tiplu, s.config.rules, w);
    var q := p.(finished := true, hand := Without(p.hand, {w.discard}));
    NormalWinner(s, seat, p, q, w);
    OneSeat(s, seat, q);
    var t := Commit(s, r.candidate, r.events);
    FormedAfter(s, t, seat, q);
    OnlyWinnerFinished(s, seat, q);
    assert t.discard[|t.discard| - 1] == w.discard;
    assert FinishedOk(t);
    Conclude(s, t, seat, q, r.events);
  }

  lemma NormalWinner(s: GameState, seat: nat, p: PlayerState, q: PlayerState, w: NormalFinish)
    requires Inv(s) && s.status == InProgress && seat < |s.players| && p == s.players[seat] && SeatOk(s, seat)
    requires q == p.(finished := true, hand := Without(p.hand, {w.discard}))
    requires ValidNormalFinish(p, s.tiplu, s.config.rules, w)
    requires w.discard in p.hand && !Locked(p, w.discard) && |p.hand| == 22
    ensures Conserved(s.players[seat := q], s.stock, s.discard + [w.discard], s.tiplu)
    ensures |q.hand| == 21 && KeepsHoldings(p, q) && PlayerFormed(q) && !p.finished
    ensures ValidNormalFinish(q.(finished := false, hand := q.hand + [w.discard]), s.tiplu, s.config.rules, w)
  {
    hide TunnelasOk, RouteOk, Declarations, HistoryOk, EighthPair, ValidNormalFinish;
    PutCard(s, seat, w.discard);
    var put := p.(hand := q.hand);
    MoveConserves(s.(players := s.players[seat := put], discard := s.discard + [w.discard]), seat, q,
                  s.stock, s.discard + [w.discard], s.tiplu);
    assert s.players[seat := put][seat := q] == s.players[seat := q];
    var before := q.(finished := false, hand := q.hand + [w.discard]);
    WithoutOne(p.hand, w.discard);
    ElemsConcat(q.hand, [w.discard]);
    assert Elems(before.hand) == Elems(p.hand);
    FinishPermuted(p, before, s.tiplu, s.config.rules, w);
  }

  lemma PairKeeps(s: GameState, id: string, pair: seq<CardId>)
    requires Inv(s) && RequireTurn(s, id, MustDiscard, true).Seat?
    requires ValidEighthPair(s.players[RequireTurn(s, id, MustDiscard, true).seat], pair)
    ensures var p := s.players[RequireTurn(s, id, MustDiscard, true).seat];
            var candidate := s.(players := WithPlayer(s.players, id, p.(finished := true)), status := Finished,
                                winner := Some(id), winningPair := pair, mustFinish := false);
            Inv(Commit(s, candidate, [PlayerFinished(|s.history| + 1, s.revision + 1, id, pair, [], [], None)]))
  {
    hide TunnelasOk, RouteOk, Declarations, HistoryOk, Conserved, EighthPair, PlayerFormed, DeclarationsPending;
    hide Indicators, ActiveCount;
    TurnIs(s, id, MustDiscard, true);
    var seat := s.currentSeat.value;
    var p := s.players[seat];
    var q := p.(finished := true);
    SameHoldings(p, q);
    HoldingsKept(p, q, s.config.rules, s.tiplu, s.tiplu);
    MoveConserves(s, seat, q, s.stock, s.discard, s.tiplu);
    OneSeat(s, seat, q);
    var events := [PlayerFinished(|s.history| + 1, s.revision + 1, id, pair, [], [], None)];
    var t := Commit(s, s.(players := WithPlayer(s.players, id, q), status := Finished,
                          winner := Some(id), winningPair := pair, mustFinish := false), events);
    FormedAfter(s, t, seat, q);
    OnlyWinnerFinished(s, seat, q);
    assert t.history[|t.history| - 1] == events[0];
    Conclude(s, t, seat, q, events);
  }

  lemma FinishKeeps(s: GameState, id: string, melds: Option<seq<Meld>>, discard: Option<CardId>,
    pair: Option<seq<CardId>>)
    requires Formed(s) && Inv(s) && StandardIndicator(s.tiplu) && Finish(s, id, melds, discard, pair).Accepted?
    ensures var r := Finish(s, id, melds, discard, pair); Inv(Commit(s, r.candidate, r.events))
  {
    hide Inv, ValidNormalFinish, ValidEighthPair, EighthPair, FindFinish, Commit, RequireTurn, FinishNormally,
      WithPlayer, PlayerFormed;
    var turn := RequireTurn(s, id, MustDiscard, true);
    var p := s.players[turn.seat];
    if p.route == Normal {
      var w := FinishWitness(s, p, melds, discard).value;
      NormalKeeps(s, id, w);
    } else {
      PairKeeps(s, id, if pair.Some? then pair.value else EighthPair(p));
    }
  }

  // ---- fold

  function Folded(p: PlayerState): PlayerState {
    p.(folded := true)
  }

  // The three ways a fold can end.
  lemma FoldShape(s: GameState, id: string) returns (t: GameState, seat: nat)
    requires Inv(s) && (TurnOk(s) || s.status != InProgress)
    requires s.status == InProgress ==> ActiveCount(s.players) >= 2 && RosterOk(s.config, s.players) && ConfigFormed(s.config)
    requires Fold(s, id).Accepted?
    ensures var r := Fold(s, id);
            && t == Commit(s, r.candidate, r.events) && t.history == s.history + r.events
            && Continues(s, r.events) && Quiet(r.events) && DrawStarted(t.history) == DrawStarted(s.history)
    ensures s.status == InProgress && TurnOk(s) && seat < |s.players| && s.players[seat].id == id
            && !s.players[seat].folded
    ensures var after := s.players[seat := Folded(s.players[seat])];
            var cur := s.currentSeat.value;
            && ActiveCount(after) == ActiveCount(s.players) - 1 >= 1
            && (ActiveCount(after) == 1 ==>
                  && t.currentSeat.Some? && t.currentSeat.value < |after| && !after[t.currentSeat.value].folded
                  && var last := t.currentSeat.value;
                  && t.history != [] && var event := t.history[|t.history| - 1];
                  && event == PlayerFinished(event.sequence, event.revision, after[last].id, [], [], [], None)
                  && t == s.(players := after[last := after[last].(finished := true)], status := Finished,
                             winner := Some(after[last].id), currentSeat := Some(last), wonByFold := true, mustFinish := false,
                             revision := s.revision + 1, history := t.history))
            && (ActiveCount(after) > 1 && seat == cur ==>
                  && t.currentSeat.Some? && t.currentSeat.value < |after| && !after[t.currentSeat.value].folded
                  && t == s.(players := after, currentSeat := t.currentSeat, phase := Some(MustDraw),
                     mustFinish := false,
                             revision := s.revision + 1, history := t.history))
            && (ActiveCount(after) > 1 && seat != cur ==>
                  t == s.(players := after, revision := s.revision + 1, history := t.history))
  {
    hide Inv, ActiveCount, FirstActive, NextSeat, WithPlayer, RosterOk;
    var r := Fold(s, id);
    seat := SeatOf(s.players, id).value;
    OneSeat(s, seat, Folded(s.players[seat]));
    OneFewer(s, seat);
    t := Commit(s, r.candidate, r.events);
    NoDrawAdded(s.history, r.events);
    OtherIds(s, seat);
  }

  lemma OtherIds(s: GameState, seat: nat)
    requires RosterOk(s.config, s.players) && ConfigFormed(s.config) && seat < |s.players|
    ensures forall k :: 0 <= k < |s.players| && k != seat ==> s.players[k].id != s.players[seat].id
  {
    forall k | 0 <= k < |s.players| && k != seat ensures s.players[k].id != s.players[seat].id {
      assert s.config.playerIds[k] != s.config.playerIds[seat];
    }
  }

  lemma FoldKeeps(s: GameState, id: string)
    requires Inv(s) && (TurnOk(s) || s.status != InProgress)
    requires s.status == InProgress ==> ActiveCount(s.players) >= 2 && RosterOk(s.config, s.players) && ConfigFormed(s.config)
    requires Fold(s, id).Accepted?
    ensures var r := Fold(s, id); Inv(Commit(s, r.candidate, r.events))
  {
    hide TunnelasOk, RouteOk, Declarations, HistoryOk, Conserved, EighthPair, PlayerFormed;
    hide Fold, Commit, Continues, Quiet, Indicators, DrawStarted, ActiveCount;
    var t, seat := FoldShape(s, id);
    var r := Fold(s, id);
    var p := s.players[seat];
    var q := Folded(p);
    assert SeatOk(s, seat);
    SameHoldings(p, q);
    HoldingsKept(p, q, s.config.rules, s.tiplu, s.tiplu);
    MoveConserves(s, seat, q, s.stock, s.discard, s.tiplu);
    QuietHistory(s, t, r.events);
    if ActiveCount(s.players[seat := q]) == 1 {
      FoldWins(s, t, seat, t.currentSeat.value);
    } else {
      SeenKept(s, t, seat);
      if DrawStarted(s.history) { PendingKept(s, t, seat); }
      Advance(s, t, seat, q);
    }
  }

  lemma FoldWins(s: GameState, t: GameState, seat: nat, last: nat)
    requires Inv(s) && s.status == InProgress && seat < |s.players| && last < |s.players| && last != seat
    requires KeepsHoldings(s.players[seat], Folded(s.players[seat])) && PlayerFormed(Folded(s.players[seat]))
    requires var after := s.players[seat := Folded(s.players[seat])];
             && ActiveCount(after) == 1 && !after[last].folded
             && Conserved(after, s.stock, s.discard, s.tiplu)
             && t == s.(players := after[last := after[last].(finished := true)], status := Finished,
                        winner := Some(after[last].id), currentSeat := Some(last), wonByFold := true, mustFinish := false,
                        revision := s.revision + 1, history := t.history)
             && t.history != [] && var event := t.history[|t.history| - 1];
             event == PlayerFinished(event.sequence, event.revision, after[last].id, [], [], [], None)
    requires HistoryOk(t) && Indicators(t.history) == Indicators(s.history)
    requires forall id :: Declarations(t.history, id) == Declarations(s.history, id)
    ensures Inv(t)
  {
    hide TunnelasOk, RouteOk, Declarations, HistoryOk, Conserved, EighthPair, PlayerFormed, Indicators,
      ActiveCount, DeclarationMatches;
    var after := s.players[seat := Folded(s.players[seat])];
    var winner := after[last].(finished := true);
    MoveConserves(s.(players := after), last, winner, s.stock, s.discard, s.tiplu);
    ActiveCountUpdate(after, last, winner);
    assert SeatOk(s, last);
    SameHoldings(s.players[last], winner);
    HoldingsKept(s.players[last], winner, s.config.rules, s.tiplu, s.tiplu);
    forall k | 0 <= k < |t.players| ensures SeatOk(t, k) {
      assert SeatOk(s, k);
      if k != seat && k != last { SameHoldings(s.players[k], t.players[k]); }
      SeatKept(s, t, k);
    }
    forall k | 0 <= k < |t.players| ensures PlayerFormed(t.players[k]) { assert SeatOk(t, k); }
    WinnerSeen(s, t, seat, last);
    assert FinishedOk(t);
  }

  lemma WinnerSeen(s: GameState, t: GameState, seat: nat, last: nat)
    requires IndicatorSeen(s) && seat < |s.players| && last < |s.players| && last != seat && t.tiplu == s.tiplu
    requires t.players == s.players[seat := Folded(s.players[seat])][last := s.players[last].(finished := true)]
    ensures IndicatorSeen(t)
  {
    if s.tiplu.Some? {
      var i :| 0 <= i < |s.players| && s.players[i].hasSeenMaal;
      assert t.players[i].hasSeenMaal;
    }
  }

  // ---- start_game

  lemma FreshInv(config: Config)
    requires ConfigFormed(config)
    ensures Inv(Fresh(config))
  {
    var s := Fresh(config);
    assert forall i :: 0 <= i < |s.players| ==> PlayerFormed(s.players[i]);
  }

  function DealtPlayers(config: Config, hands: seq<seq<PhysicalCard>>): (r: seq<PlayerState>)
    requires |hands| == |config.playerIds|
    ensures |r| == |hands|
  {
    seq(|hands|, i requires 0 <= i < |hands| => FreshPlayer(config.playerIds[i], hands[i]))
  }

  lemma {:induction false} DealConserves(config: Config, deck: seq<PhysicalCard>, r: nat, j: nat)
    requires 2 <= |config.playerIds| <= 5 && r <= HAND_SIZE && j <= |config.playerIds| && (r == HAND_SIZE ==> j == 0)
    requires |deck| == 159
    ensures var (hands, stock) := Dealt(deck, |config.playerIds|, r, j);
            multiset(Hands(DealtPlayers(config, hands))) + multiset(stock) == multiset(deck)
    decreases r, j
  {
    var n := |config.playerIds|;
    if r == 0 && j == 0 {
      var (hands, stock) := Dealt(deck, n, 0, 0);
      NoHands(DealtPlayers(config, hands));
    } else if j == 0 {
      DealConserves(config, deck, r - 1, n);
    } else {
      DealConserves(config, deck, r, j - 1);
      DealOne(config, deck, r, j);
    }
  }

  lemma {:induction false} NoHands(players: seq<PlayerState>)
    requires forall i :: 0 <= i < |players| ==> players[i].hand == []
    ensures Hands(players) == []
  {
    if players != [] { NoHands(players[1..]); }
  }

  lemma DealOne(config: Config, deck: seq<PhysicalCard>, r: nat, j: nat)
    requires 2 <= |config.playerIds| <= 5 && r < HAND_SIZE && 0 < j <= |config.playerIds| && |deck| == 159
    requires var (hands, stock) := Dealt(deck, |config.playerIds|, r, j - 1);
             multiset(Hands(DealtPlayers(config, hands))) + multiset(stock) == multiset(deck)
    ensures var (hands, stock) := Dealt(deck, |config.playerIds|, r, j);
            multiset(Hands(DealtPlayers(config, hands))) + multiset(stock) == multiset(deck)
  {
    var n := |config.playerIds|;
    var (before, pile) := Dealt(deck, n, r, j - 1);
    var (hands, stock) := Dealt(deck, n, r, j);
    DealtStep(deck, n, r, j);
    hide Dealt, Hands;
    var top := pile[|pile| - 1];
    assert pile == stock + [top];
    var was, now := DealtPlayers(config, before), DealtPlayers(config, hands);
    assert now == was[j - 1 := now[j - 1]];
    HandsUpdate(was, j - 1, now[j - 1]);
    HandOneMore(multiset(Hands(was)), multiset(Hands(now)), multiset(before[j - 1]), multiset(stock), top,
        multiset(deck));
  }

  lemma DealtStep(deck: seq<PhysicalCard>, n: nat, r: nat, j: nat)
    requires 0 < n <= 5 && r < HAND_SIZE && 0 < j <= n && |deck| == 159
    ensures var (before, pile) := Dealt(deck, n, r, j - 1);
            |pile| > 0 && Dealt(deck, n, r, j) ==
            (before[j - 1 := before[j - 1] + [pile[|pile| - 1]]], pile[..|pile| - 1])
  {
    assert r * n <= 20 * 5;
  }

  lemma HandOneMore(was: multiset<PhysicalCard>, now: multiset<PhysicalCard>, hand: multiset<PhysicalCard>,
                    stock: multiset<PhysicalCard>, top: PhysicalCard, deck: multiset<PhysicalCard>)
    requires now + hand == was + (hand + multiset{top})
    requires was + (stock + multiset{top}) == deck
    ensures now + stock == deck
  {
    forall x ensures (now + stock)[x] == deck[x] {
      assert (now + hand)[x] == (was + (hand + multiset{top}))[x];
      assert (was + (stock + multiset{top}))[x] == deck[x];
    }
  }

  lemma StartKeeps(s: GameState, shuffle: seq<PhysicalCard> -> seq<PhysicalCard>)
    requires Formed(s) && Inv(s) && Shuffles(shuffle) && |shuffle(CreateDeck())| == 159
    requires Start(s, shuffle).Accepted?
    ensures var t := Start(s, shuffle).candidate; InitialOk(t) && Inv(t)
  {
    hide Conserved, EighthPair, Dealt, Inv, CreateDeck;
    var t := Start(s, shuffle).candidate;
    var n := |s.config.playerIds|;
    var deck := shuffle(CreateDeck());
    var (hands, rest) := Dealt(deck, n, HAND_SIZE, 0);
    assert 21 * n <= 105;
    assert t.players == DealtPlayers(s.config, hands);
    DealConserves(s.config, deck, HAND_SIZE, 0);
    assert rest == t.stock + t.discard;
    StartConserved(t, rest);
    StartAudited(t);
  }

  lemma StartConserved(t: GameState, rest: seq<PhysicalCard>)
    requires rest == t.stock + t.discard && t.tiplu.None?
    requires multiset(Hands(t.players)) + multiset(rest) == multiset(CreateDeck())
    ensures Conserved(t.players, t.stock, t.discard, t.tiplu)
  {
    hide CreateDeck, Hands;
    ConservedIsPermutation(t.players, t.stock, t.discard, t.tiplu);
    assert Holdings(t.players, t.stock, t.discard, t.tiplu) == multiset(Hands(t.players)) + multiset(rest);
  }

  // A freshly dealt state passes the full audit as well.
  lemma StartAudited(t: GameState)
    requires ConfigFormed(t.config) && InitialOk(t) && t.status == InProgress
    ensures Inv(t)
  {
    hide Conserved, EighthPair, CompletionMeld;
    forall k | 0 <= k < |t.players| ensures SeatOk(t, k) {
      ConservedApart(t, k);
      StartDeclarations(t.config, t.players[k].id);
      assert t.players[k].shownMelds == [] && t.players[k].initialTunnelas == [];
    }
    StartHistory(t);
    NoneFolded(t.players);
    forall k | 0 <= k < |t.players| ensures PlayerFormed(t.players[k]) { assert SeatOk(t, k); }
    assert Formed(t);
    assert ActiveOk(t);
    assert ForcedOk(t);
    assert Audit(t);
  }

  lemma StartDeclarations(config: Config, id: string)
    ensures Declarations([GameStarted(1, 1, config.playerIds, HAND_SIZE),
            TurnChanged(2, 1, config.firstPlayerId, MustDraw)], id) == []
  {
    var a, b := GameStarted(1, 1, config.playerIds, HAND_SIZE), TurnChanged(2, 1, config.firstPlayerId, MustDraw);
    assert [a] == [] + [a] && [a, b] == [a] + [b];
    DeclarationsNext([], a, id);
    DeclarationsNext([a], b, id);
  }

  lemma StartHistory(t: GameState)
    requires t.revision == 1
    requires t.history == [GameStarted(1, 1, t.config.playerIds, HAND_SIZE),
             TurnChanged(2, 1, t.config.firstPlayerId, MustDraw)]
    ensures HistoryOk(t) && !DrawStarted(t.history) && Indicators(t.history) == []
  {
    var a, b := t.history[0], t.history[1];
    assert [a] == [] + [a] && t.history == [a] + [b];
    HistoryNext([], a, true);
    HistoryNext([a], b, true);
    HistoryNext([], a, false);
    HistoryNext([a], b, false);
  }

  lemma {:induction false} NoneFolded(players: seq<PlayerState>)
    requires forall i :: 0 <= i < |players| ==> !players[i].folded
    ensures ActiveCount(players) == |players|
  {
    if players != [] { NoneFolded(players[1..]); }
  }
}
