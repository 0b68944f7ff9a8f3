// The engine object: its snapshot is replaced only by a commit the audit has
// accepted. Also the loop that hands out the cards, and the verdict of a show.
module FlushGame {
  import opened Prelude
  import opened Cards
  import opened Dealing
  import opened FlushEvaluator
  import opened FlushModels
  import opened FlushAudit
  import opened FlushSteps
  import opened FlushInvariant
  import opened FlushBetting
  import opened FlushSettlement
  import opened FlushShows
  import opened FlushSideShow
  import opened FlushPreparation
  import opened FlushEngine

  datatype Reply = Refused(error: Error) | Done(revision: nat, events: seq<Event>)

  function ReplyTo(s: State, r: Outcome): Reply {
    match r
    case Rejected(error) => Refused(error)
    case Accepted(candidate, specs) => Done(s.revision + 1, Numbered(specs, |s.history|, s.revision + 1))
  }

  // ---- handing out the cards

  lemma OffsetSeat(dealer: nat, n: nat, offset: nat)
    requires dealer < n && offset < n
    ensures Around(Around(dealer + 1, n) + offset, n) < n
    ensures HandIndex(dealer + 1, n, Around(Around(dealer + 1, n) + offset, n) + 1) == offset
  {
    SameIndex(dealer + 1, n, offset);
  }

  // When a seat is served, counting from the dealer's left.
  function Place(dealer: nat, n: nat, seat: nat): (i: nat)
    requires dealer < n && seat < n
    ensures i < n
  {
    HandIndex(dealer + 1, n, seat + 1)
  }

  // What has been handed out after some of the hands.
  predicate HandedOut(players: seq<Player>, before: seq<Player>, deck: seq<Card>, dealer: nat, boot: int, count: nat)
    requires dealer < |before| && |before| * 3 <= |deck|
  {
    && |players| == |before|
    && forall p :: 0 <= p < |players| ==>
         players[p] == if Place(dealer, |before|, p) < count
                       then before[p].(cards := Stride(deck, Place(dealer, |before|, p), |before|, 3),
                           contribution := boot)
                       else before[p]
  }

  // Different seats are served at different times.
  lemma PlacesDiffer(dealer: nat, n: nat, p: nat, q: nat)
    requires dealer < n && p < n && q < n && p != q
    ensures Place(dealer, n, p) != Place(dealer, n, q)
  {
    IndexSeat(dealer + 1, n, p + 1);
    IndexSeat(dealer + 1, n, q + 1);
  }

  lemma HandedNext(players: seq<Player>, before: seq<Player>, deck: seq<Card>, dealer: nat, boot: int, offset: nat)
    requires dealer < |before| && |before| * 3 <= |deck| && offset < |before|
    requires HandedOut(players, before, deck, dealer, boot, offset)
    ensures Around(Around(dealer + 1, |before|) + offset, |before|) < |before|
    ensures var seat := Around(Around(dealer + 1, |before|) + offset, |before|);
            HandedOut(players[seat := players[seat].(cards := Stride(deck, offset, |before|, 3), contribution := boot)],
                      before, deck, dealer, boot, offset + 1)
  {
    var n := |before|;
    OffsetSeat(dealer, n, offset);
    var seat := Around(Around(dealer + 1, n) + offset, n);
    assert Place(dealer, n, seat) == offset;
    hide Place, Stride;
    forall p | 0 <= p < n && p != seat ensures Place(dealer, n, p) != offset { PlacesDiffer(dealer, n, p, seat); }
  }

  // for offset, cards in enumerate(hands): players[(first + offset) % n] gets them.
  method HandOut(before: seq<Player>, deck: seq<Card>, dealer: nat, boot: int) returns (players: seq<Player>)
    requires dealer < |before| && |before| * 3 <= |deck|
    ensures players == Dealt(before, DealtHands(deck, dealer + 1, |before|, 3), boot)
  {
    hide HandedOut;
    var n := |before|;
    var first := Around(dealer + 1, n);
    players := before;
    NothingHanded(before, deck, dealer, boot);
    for offset := 0 to n
      invariant |players| == n && HandedOut(players, before, deck, dealer, boot, offset)
    {
      HandedNext(players, before, deck, dealer, boot, offset);
      var seat := Around(first + offset, n);
      players := players[seat := players[seat].(cards := Stride(deck, offset, n, 3), contribution := boot)];
    }
    AllHanded(players, before, deck, dealer, boot);
  }

  lemma NothingHanded(before: seq<Player>, deck: seq<Card>, dealer: nat, boot: int)
    requires dealer < |before| && |before| * 3 <= |deck|
    ensures HandedOut(before, before, deck, dealer, boot, 0)
  {
  }

  lemma AllHanded(players: seq<Player>, before: seq<Player>, deck: seq<Card>, dealer: nat, boot: int)
    requires dealer < |before| && |before| * 3 <= |deck| && HandedOut(players, before, deck, dealer, boot, |before|)
    ensures players == Dealt(before, DealtHands(deck, dealer + 1, |before|, 3), boot)
  {
    hide HandIndex, Stride;
  }

  // ---- the verdict of a show

  // No active player's hand beats this one.
  predicate Unbeaten(policy: AcePolicy, players: seq<Player>, k: nat)
    requires k < |players| && forall i :: 0 <= i < |players| ==> Hand(players[i].cards)
  {
    forall j :: 0 <= j < |players| ==> Compare(policy, players[k].cards, players[j].cards).Some?
                                       && Compare(policy, players[k].cards, players[j].cards).value >= 0
  }

  // The best ids are the unbeaten ones, whatever the order of the seats.
  lemma BestIdsUnbeaten(policy: AcePolicy, players: seq<Player>)
    requires players != [] && forall i :: 0 <= i < |players| ==> Hand(players[i].cards)
    ensures Graded(policy, players).Some? && |Graded(policy, players).value| == |players|
    ensures var results := Graded(policy, players).value;
            forall id :: id in BestIds(players, results, Best(results)) <==>
              exists k :: 0 <= k < |players| && players[k].id == id && Unbeaten(policy, players, k)
  {
    hide NoDup, Grade, Less, Compare;
    GradedIs(policy, players);
    var results := Graded(policy, players).value;
    var best := Best(results);
    BestIdsAre(players, results, best);
    BestIsUnbeaten(results);
    forall k | 0 <= k < |players| ensures Unbeaten(policy, players, k) <==> results[k] == best {
      forall j | 0 <= j < |players|
        ensures Compare(policy, players[k].cards, players[j].cards).Some?
        ensures Compare(policy, players[k].cards, players[j].cards).value >= 0 <==> !Less(results[k], results[j])
      {
        CompareIs(policy, players[k].cards, players[j].cards);
        LessTotal(results[k], results[j], results[k]);
      }
    }
  }

  // An accepted side-show folds one of the two: the requester stays only with
  // the better hand, and the turn passes to the next active player after.
  lemma SideShowVerdict(s: State)
    requires Inv(s) && s.status == InProgress && s.pendingSideShow.Some?
    ensures var r := s.pendingSideShow.value; var a, b := SeatOf(s.players, r.requester), SeatOf(s.players, r.target);
            && RespondSideShow(s, r.target, true).Accepted? && a.Some? && b.Some? && a.value != b.value
            && |s.players[a.value].cards| == 3 && |s.players[b.value].cards| == 3
            && var policy, t := s.config.rules.acePolicy, RespondSideShow(s, r.target, true).candidate;
               var stays := Less(Grade(policy, s.players[b.value].cards), Grade(policy, s.players[a.value].cards));
               var loser := if stays then b.value else a.value;
               && t.players == s.players[loser := s.players[loser].(status := Folded)]
               && t.currentSeat == NextSeat(t.players, a.value) && t.pendingSideShow.None? && t.pot == s.pot
  {
    hide Inv, SeatOf, NextSeat, Compare, Grade, Keeps, NoDup, Actives, Less;
    var r := s.pendingSideShow.value;
    SidePair(s);
    RespondSideKeeps(s, r.target, true);
    SideShowAnswered(s);
    var a, b := SeatOf(s.players, r.requester).value, SeatOf(s.players, r.target).value;
    CompareIs(s.config.rules.acePolicy, s.players[a].cards, s.players[b].cards);
    BetterBeats(Grade(s.config.rules.acePolicy, s.players[a].cards),
        Grade(s.config.rules.acePolicy, s.players[b].cards));
    InRoster(s);
    WithPlayerIs(s.config, s.players, a, s.players[a].(status := Folded));
    WithPlayerIs(s.config, s.players, b, s.players[b].(status := Folded));
  }

  lemma SideShowAnswered(s: State)
    requires Inv(s) && s.status == InProgress && s.pendingSideShow.Some?
    ensures AnswersSideShow(s, s.pendingSideShow.value.target)
  {
    hide Inv;
  }

  lemma BetterBeats(a: HandResult, b: HandResult)
    ensures Less(a, b) ==> !Less(b, a)
  {
    LessTotal(a, b, b);
  }

  // After a reveal the winners are the unbeaten players; when both tie and the
  // rules say so, the one who asked for the show loses.
  lemma ShowVerdict(s: State)
    requires Inv(s) && s.status == InProgress && s.pendingShow.Some?
    ensures RespondShow(s, s.pendingShow.value.target, true).Accepted?
    ensures RespondShow(s, s.pendingShow.value.target, true).candidate.settlement.Some?
    ensures forall i :: 0 <= i < |Actives(s.players)| ==> Hand(Actives(s.players)[i].cards)
    ensures var active := Actives(s.players); var policy := s.config.rules.acePolicy;
            var tie := forall k :: 0 <= k < |active| ==> Unbeaten(policy, active, k);
            var winners := RespondShow(s, s.pendingShow.value.target, true).candidate.settlement.value.winners;
            |active| == 2 && s.config.dealerId in s.config.playerIds && FromDealersLeft(s.config, winners) &&
            forall id :: id in winners <==>
              (exists k :: 0 <= k < |active| && active[k].id == id && Unbeaten(policy, active, k))
              && !(tie && s.config.rules.tiePolicy == RequesterLoses && id == s.pendingShow.value.requester)
  {
    hide Inv, Actives, Graded, BestIds, Best, Settled, Compare, Grade, NoDup, Keeps, Without, Unbeaten, FromDealersLeft;
    var requester := s.pendingShow.value.requester;
    RespondKeeps(s, s.pendingShow.value.target, true);
    ActiveHands(s);
    ShowIsBetweenTwo(s);
    ShowWinners(s, requester);
    var active, policy := Actives(s.players), s.config.rules.acePolicy;
    BestIdsUnbeaten(policy, active);
    var results := Graded(policy, active).value;
    var winners := BestIds(active, results, Best(results));
    var chosen := if |winners| > 1 && s.config.rules.tiePolicy == RequesterLoses then
        Without(winners, requester) else winners;
    ChosenSettles(s, chosen, Best(results));
    TieMeans(s, policy, winners);
  }

  // The settled winners are the chosen ids, reordered.
  lemma ChosenSettles(s: State, chosen: seq<string>, best: HandResult)
    requires Inv(s) && s.status == InProgress && s.pendingShow.Some?
    requires chosen != [] && Elems(chosen) <= Elems(Ids(Actives(s.players)))
    ensures var d := Settled(s, ShowReason, chosen, Show(Actives(s.players)), Some(best));
            && d.Some? && d.value.settlement.Some? && s.config.dealerId in s.config.playerIds
            && FromDealersLeft(s.config, d.value.settlement.value.winners)
            && forall id :: id in d.value.settlement.value.winners <==> id in chosen
  {
    hide Inv, Actives, Settled, NoDup, Shares, FromDealersLeft;
    InRound(s);
    SubsetOfIds(chosen, s.config, s.players);
    SettledIs(s, ShowReason, chosen, Show(Actives(s.players)), Some(best));
    var winners := Settled(s, ShowReason, chosen, Show(Actives(s.players)), Some(best)).value.settlement.value.winners;
    forall id ensures id in winners <==> id in chosen {
      assert id in winners <==> id in Elems(winners);
      assert id in chosen <==> id in Elems(chosen);
    }
  }

  // More than one winner means that both players are unbeaten.
  lemma TieMeans(s: State, policy: AcePolicy, winners: seq<string>)
    requires Inv(s) && s.status == InProgress && |Actives(s.players)| == 2 && NoDup(winners) && winners != []
    requires forall i :: 0 <= i < |Actives(s.players)| ==> Hand(Actives(s.players)[i].cards)
    requires var active := Actives(s.players);
             forall id :: id in winners <==> exists k ::
                 0 <= k < |active| && active[k].id == id && Unbeaten(policy, active, k)
    ensures var active := Actives(s.players);
            |winners| > 1 <==> forall k :: 0 <= k < |active| ==> Unbeaten(policy, active, k)
  {
    hide Inv, Actives, Unbeaten, Hand;
    InRoster(s);
    ActiveIds(s.config, s.players);
    var active := Actives(s.players);
    assert Ids(active)[0] != Ids(active)[1];
    TwoUnbeaten(policy, active, winners);
  }

  lemma TwoUnbeaten(policy: AcePolicy, active: seq<Player>, winners: seq<string>)
    requires |active| == 2 && active[0].id != active[1].id && NoDup(winners) && winners != []
    requires forall i :: 0 <= i < |active| ==> Hand(active[i].cards)
    requires forall id :: id in winners <==> exists k ::
             0 <= k < |active| && active[k].id == id && Unbeaten(policy, active, k)
    ensures |winners| > 1 <==> Unbeaten(policy, active, 0) && Unbeaten(policy, active, 1)
    ensures |winners| > 1 <==> forall k :: 0 <= k < |active| ==> Unbeaten(policy, active, k)
  {
    hide Unbeaten, Hand;
    forall k | 0 <= k < 2 ensures active[k].id in winners <==> Unbeaten(policy, active, k) {}
    if |winners| > 1 {
      assert winners[0] != winners[1] && winners[0] in winners && winners[1] in winners;
    }
    if active[0].id in winners && active[1].id in winners {
      var i :| 0 <= i < |winners| && winners[i] == active[0].id;
      var j :| 0 <= j < |winners| && winners[j] == active[1].id;
      assert i != j;
    }
  }

  // ---- the engine

  class FlushGameEngine {
    var state: State

    ghost predicate Valid()
      reads this
    {
      Inv(state)
    }

    constructor (config: Config)
      requires ConfigFormed(config)
      ensures Valid() && state == Fresh(config)
    {
      FreshInv(config);
      state := Fresh(config);
    }

    // _commit: the candidate, numbered and audited, or no change at all.
    method CommitCandidate(candidate: State, specs: seq<Spec>) returns (reply: Reply)
      modifies this
      ensures var committed := Commit(old(state), candidate, specs);
              if Audit(committed) then state == committed && reply == ReplyTo(old(state), Accepted(candidate, specs))
              else state == old(state) && reply == Refused(InvariantFailure)
    {
      var committed := Commit(state, candidate, specs);
      var ok := ValidateGameState(committed);
      if !ok {
        return Refused(InvariantFailure);
      }
      reply := ReplyTo(state, Accepted(candidate, specs));
      state := committed;
    }

    // A decided outcome: refused without a change, or committed as decided.
    method Settle(r: Outcome) returns (reply: Reply)
      requires Valid() && Keeps(state, r)
      modifies this
      ensures Valid() && state == Next(old(state), r) && reply == ReplyTo(old(state), r)
    {
      hide Audit, Commit;
      match r
      case Rejected(error) =>
        reply := Refused(error);
      case Accepted(candidate, specs) =>
        reply := CommitCandidate(candidate, specs);
    }

    method StartGame() returns (reply: Reply)
      requires Valid()
      modifies this
      ensures Valid() && state == Next(old(state), FlushSteps.StartGame(old(state)))
              && reply == ReplyTo(old(state), FlushSteps.StartGame(old(state)))
      ensures old(state).status == Waiting <==> reply.Done?
    {
      hide Inv, FlushSteps.StartGame, Keeps;
      StartKeeps(state);
      reply := Settle(FlushSteps.StartGame(state));
    }

    method PrepareNextRound(id: string, roster: Option<seq<string>>) returns (reply: Reply)
      requires Valid()
      modifies this
      ensures var r := FlushSteps.PrepareNextRound(old(state), id, roster);
              Valid() && state == Next(old(state), r) && reply == ReplyTo(old(state), r)
    {
      hide Inv, FlushSteps.PrepareNextRound, Keeps;
      NextRoundKeeps(state, id, roster);
      reply := Settle(FlushSteps.PrepareNextRound(state, id, roster));
    }

    method FoldForLeave(id: string) returns (reply: Reply)
      requires Valid()
      modifies this
      ensures var r := FlushSteps.FoldForLeave(old(state), id);
              Valid() && state == Next(old(state), r) && reply == ReplyTo(old(state), r)
      ensures reply.Done? ==> |Actives(state.players)| == |Actives(old(state).players)| - 1
    {
      hide Inv, FlushSteps.FoldForLeave, Keeps, Actives;
      LeaveKeeps(state, id);
      var r := FlushSteps.FoldForLeave(state, id);
      if r.Accepted? { OneFewer(state, id); }
      reply := Settle(r);
    }

    // _complete_deal, with its loop over the hands.
    method CompleteDeal(id: string, position: Option<int>) returns (reply: Reply)
      requires Valid() && (position.Some? ==> 1 <= position.value < 52)
      modifies this
      ensures var r := FlushSteps.CompleteDeal(old(state), id, position);
              Valid() && state == Next(old(state), r) && reply == ReplyTo(old(state), r)
    {
      hide Inv, Keeps, FullDeck, CurrentId, FirstSeat, FlushSteps.CompleteDeal, Audit, Commit, DealSpecs, Cut,
        IndexOf, Dealt, DealtHands, Numbered;
      CompleteDealKeeps(state, id, position);
      if state.status != AwaitingCut || CurrentId(state) != Some(id) {
        NoDeal(state, id, position);
        return Refused(InvalidAction);
      }
      DeckReady(state);
      var deck := if position.Some? then Cut(state.stock, position.value) else state.stock;
      var dealer := IndexOf(state.config.playerIds, state.config.dealerId);
      var boot := state.config.rules.bootAmount;
      var players := HandOut(state.players, deck, dealer, boot);
      var candidate := DealtState(state, deck);
      DealIs(state, id, position, deck);
      DealtPlayers(state, deck);
      var r := Accepted(candidate.(players := players), DealSpecs(id, position, players, boot, FirstSeat(state)));
      assert r == FlushSteps.CompleteDeal(state, id, position);
      reply := Settle(r);
    }

    // apply_action, which calls one engine method per action.
    method ApplyAction(id: string, action: Action, deck: seq<Card>) returns (reply: Reply)
      requires Valid() && FullDeck(deck)
      modifies this
      ensures var r := Apply(old(state), id, action, deck);
              Valid() && state == Next(old(state), r) && reply == ReplyTo(old(state), r)
      ensures reply.Done? <==> SeatOf(old(state).players, id).Some? && NameOf(action) in Kinds(old(state), id).value
                               && Fits(old(state), SeatOf(old(state).players, id).value, action)
    {
      hide Inv, Apply, Keeps, FullDeck, Kinds, Fits, SeatOf, FlushSteps.CompleteDeal;
      ApplyKeeps(state, id, action, deck);
      if SeatOf(state.players, id).Some? {
        KindsExact(state, id, action, deck);
      } else {
        StrangerRefused(state, id, action, deck);
      }
      if action.ActSkipCut? {
        SkipIs(state, id, deck);
        reply := CompleteDeal(id, None);
      } else if action.ActCut? && 1 <= action.position < 52 {
        CutIs(state, id, action.position, deck);
        reply := CompleteDeal(id, Some(action.position));
      } else {
        reply := Settle(Apply(state, id, action, deck));
      }
    }
  }

  lemma DealtPlayers(s: State, deck: seq<Card>)
    requires s.config.dealerId in s.config.playerIds && |s.players| == |s.config.playerIds| && |s.players| * 3 <= |deck|
    ensures DealtState(s, deck).players ==
            Dealt(s.players, DealtHands(deck, IndexOf(s.config.playerIds, s.config.dealerId) + 1, |s.players|,
                3), s.config.rules.bootAmount)
  {
  }

  lemma SkipIs(s: State, id: string, deck: seq<Card>)
    ensures Apply(s, id, ActSkipCut, deck) == FlushSteps.CompleteDeal(s, id, None)
  {
  }

  lemma CutIs(s: State, id: string, position: int, deck: seq<Card>)
    requires 1 <= position < 52
    ensures Apply(s, id, ActCut(position), deck) == FlushSteps.CompleteDeal(s, id, Some(position))
  {
  }

  lemma NoDeal(s: State, id: string, position: Option<int>)
    requires s.status != AwaitingCut || CurrentId(s) != Some(id)
    ensures FlushSteps.CompleteDeal(s, id, position) == Rejected(InvalidAction)
  {
  }

  lemma DeckReady(s: State)
    requires Inv(s) && s.status == AwaitingCut
    ensures |s.stock| == 52 && |s.players| == |s.config.playerIds| <= 10
            && s.config.dealerId in s.config.playerIds && |s.players| > 0
    ensures FirstSeat(s) < |s.players|
  {
    hide FullDeck, NoDup;
    PreparationFacts(s);
    DeckSize(s.stock);
  }

  lemma DealIs(s: State, id: string, position: Option<int>, deck: seq<Card>)
    requires Inv(s) && s.status == AwaitingCut && CurrentId(s) == Some(id)
             && (position.Some? ==> 1 <= position.value < 52)
    requires |s.stock| == 52 && deck == if position.Some? then Cut(s.stock, position.value) else s.stock
    requires |s.players| == |s.config.playerIds| <= 10 && s.config.dealerId in s.config.playerIds && |s.players| > 0
    ensures FirstSeat(s) < |s.players|
    ensures var c := DealtState(s, deck);
            FlushSteps.CompleteDeal(s, id, position) ==
            Accepted(c, DealSpecs(id, position, c.players, s.config.rules.bootAmount, FirstSeat(s)))
  {
    hide Inv, DealtHands, BootSpecs, CurrentId, IndexOf;
  }

  // A player the table does not know is refused everything.
  lemma StrangerRefused(s: State, id: string, action: Action, deck: seq<Card>)
    requires Inv(s) && SeatOf(s.players, id).None? && FullDeck(deck)
    ensures Apply(s, id, action, deck).Rejected?
  {
    hide Inv, FullDeck, RequireTurn, SeeBlock, ShowBlock, SideShowBlock, CurrentId, SeatOf, Bet, See, Fold,
      RequestShow, RespondShow, PrepareNextRound,
      DealCards, CutDeck, FlushSteps.CompleteDeal, RequestSideShow, RespondSideShow, Keeps, WonLast, AnswersShow, AnswersSideShow;
    StrangerFacts(s, id);
    match action
    case ActBet(amount) => BetKeeps(s, id, amount);
    case ActSee => SeeKeeps(s, id);
    case ActFold => FoldKeeps(s, id);
    case ActShow => ShowKeeps(s, id);
    case ActReveal => RespondKeeps(s, id, true);
    case ActStartNextRound => NextRoundKeeps(s, id, None);
    case ActDeal => DealKeeps(s, id, deck);
    case ActCut(position) => CutKeepsInv(s, id, position);
    case ActSkipCut => CompleteDealKeeps(s, id, None);
    case ActRequestSideShow => RequestKeeps(s, id);
    case ActAcceptSideShow => RespondSideKeeps(s, id, true);
    case ActDeclineSideShow => RespondSideKeeps(s, id, false);
  }

  lemma StrangerFacts(s: State, id: string)
    requires Inv(s) && SeatOf(s.players, id).None?
    ensures RequireTurn(s, id).NoTurn? && SeeBlock(s, id).Some? && ShowBlock(s, id).Some? && SideShowBlock(s, id).Some?
    ensures CurrentId(s) != Some(id) && !AnswersShow(s, id) && !AnswersSideShow(s, id)
    ensures s.status == Finished ==> !WonLast(s, id)
  {
    hide Inv, ConfigFormed, Actives, Roster;
    InRoster(s);
    Strangers(s.config, s.players, id);
    if s.status == Finished { WinnerCanStart(s);
        WinnerSeated(Config(s.config.playerIds, s.config.rules, s.settlement.value.winners[0])); }
    if s.status == InProgress {
      if s.pendingShow.Some? { var seat := ShowTargetSeat(s); }
      if s.pendingSideShow.Some? { SidePlaces(s); }
    }
  }

  lemma WinnerSeated(config: Config)
    requires ConfigFormed(config)
    ensures config.dealerId in config.playerIds
  {
  }

  lemma Strangers(config: Config, players: seq<Player>, id: string)
    requires Roster(config, players) && SeatOf(players, id).None?
    ensures id !in config.playerIds
  {
    forall i | 0 <= i < |config.playerIds| ensures config.playerIds[i] != id { assert players[i].id != id; }
  }

  lemma OneFewer(s: State, id: string)
    requires Inv(s) && FlushSteps.FoldForLeave(s, id).Accepted?
    ensures |Actives(FlushSteps.FoldForLeave(s, id).candidate.players)| == |Actives(s.players)| - 1
  {
    hide Inv, Actives, SeatOf, FlushSteps.FoldForLeave, Finish, FlushSteps.Settle, Passed, CurrentId, Keeps,
      LeftSpecs, SeatsKept;
    LeaveKeeps(s, id);
    var seat := SeatOf(s.players, id).value;
    LeaveShape(s, seat);
    FoldedSeat(s, seat);
    EndsWith(Left(s, seat), LeftSpecs(s, seat));
  }

  // Settling and passing on change no seat.
  lemma EndsWith(c: State, specs: seq<Spec>)
    ensures Finish(FlushSteps.Settle(c, None), specs).Accepted?
            ==> Finish(FlushSteps.Settle(c, None), specs).candidate.players == c.players
    ensures Passed(c, specs).Accepted? ==> Passed(c, specs).candidate.players == c.players
  {
    hide Actives, Only, Clockwise, Shares, NetChanges, NextSeat, IndexOf;
  }
}
