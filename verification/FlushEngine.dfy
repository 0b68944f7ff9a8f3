// Whole games of Flush: what every run of commands keeps.
module FlushEngine {
  // Every run passes the audit, money always adds up, the minimums never fall,
  // and what is advertised is what is accepted.

  import opened Prelude
  import opened Cards
  import opened Dealing
  import opened FlushEvaluator
  import opened FlushModels
  import opened FlushAudit
  import opened FlushSteps
  import opened FlushInvariant
  import opened FlushBetting
  import opened FlushSettlement
  import opened FlushShows
  import opened FlushSideShow
  import opened FlushPreparation

  // ---- every command

  // A shuffle of the standard deck, wherever the command deals.
  predicate FairDeck(command: Command) {
    command.Player? ==> FullDeck(command.deck)
  }

  lemma DecideKeeps(s: State, command: Command)
    requires Inv(s) && FairDeck(command)
    ensures Keeps(s, Decide(s, command))
  {
    hide Inv, Keeps, FullDeck;
    match command
    case Start => StartKeeps(s);
    case NextRound(id, roster) => NextRoundKeeps(s, id, roster);
    case LeaveTable(id) => LeaveKeeps(s, id);
    case Player(id, action, deck) => ApplyKeeps(s, id, action, deck);
  }

  lemma ApplyKeeps(s: State, id: string, action: Action, deck: seq<Card>)
    requires Inv(s) && FullDeck(deck)
    ensures Keeps(s, Apply(s, id, action, deck))
  {
    hide Inv, Keeps, FullDeck;
    match action
    case ActBet(amount) => BetKeeps(s, id, amount);
    case ActSee => SeeKeeps(s, id);
    case ActFold => FoldKeeps(s, id);
    case ActShow => ShowKeeps(s, id);
    case ActReveal => RespondKeeps(s, id, true);
    case ActStartNextRound => NextRoundKeeps(s, id, None);
    case ActDeal => DealKeeps(s, id, deck);
    case ActCut(position) => CutKeepsInv(s, id, position);
    case ActSkipCut => CompleteDealKeeps(s, id, None);
    case ActRequestSideShow => RequestKeeps(s, id);
    case ActAcceptSideShow => RespondSideKeeps(s, id, true);
    case ActDeclineSideShow => RespondSideKeeps(s, id, false);
  }

  lemma CutKeepsInv(s: State, id: string, position: int)
    requires Inv(s)
    ensures Keeps(s, CutDeck(s, id, position))
    ensures CutDeck(s, id, position).Accepted?
            <==> s.status == AwaitingCut && CurrentId(s) == Some(id) && 1 <= position < 52
  {
    hide Inv, CompleteDeal, CurrentId;
    if 1 <= position < 52 { CompleteDealKeeps(s, id, Some(position)); }
  }

  // ---- runs

  // What a command leaves behind: the committed candidate, or the state as it was.
  function Next(s: State, r: Outcome): State {
    if r.Accepted? then Commit(s, r.candidate, r.specs) else s
  }

  function Reached(config: Config, commands: seq<Command>): State {
    if commands == [] then Fresh(config)
    else
      var before := Reached(config, commands[..|commands| - 1]);
      Next(before, Decide(before, commands[|commands| - 1]))
  }

  lemma FreshInv(config: Config)
    requires ConfigFormed(config)
    ensures Inv(Fresh(config))
  {
    ZeroSum(Contributions(Fresh(config).players));
  }

  ghost predicate Fair(commands: seq<Command>) {
    forall i :: 0 <= i < |commands| ==> FairDeck(commands[i])
  }

  // Over every run, through any number of rounds, departures and rosters: the
  // audit accepts the state reached and whatever the next command commits, and
  // the only refusals are the engine's own.
  lemma {:induction false} RunAudited(config: Config, commands: seq<Command>, next: Command)
    requires ConfigFormed(config) && Fair(commands) && FairDeck(next)
    ensures var s := Reached(config, commands); var r := Decide(s, next);
            && Inv(s) && Audit(s) && Inv(Next(s, r)) && Audit(Next(s, r))
            && (r.Rejected? ==> r.error == InvalidAction || r.error == InvalidTurn || r.error == InvalidValue)
  {
    hide Decide, ConfigFormed, Audit, FairDeck, Commit;
    if commands == [] {
      FreshInv(config);
    } else {
      RunAudited(config, commands[..|commands| - 1], commands[|commands| - 1]);
    }
    DecideKeeps(Reached(config, commands), next);
  }

  // ---- the pot is what the round's events say

  function RoundTotal(history: seq<Event>, start: nat): int {
    if history == [] then 0
    else
      var last := history[|history| - 1];
      RoundTotal(history[..|history| - 1], start) + if Pays(last, start) then last.what.amount else 0
  }

  function PaidByEach(ids: seq<string>, history: seq<Event>, start: nat): (r: seq<int>)
    ensures |r| == |ids| && forall i :: 0 <= i < |r| ==> r[i] == Paid(history, start, ids[i])
  {
    seq(|ids|, i requires 0 <= i < |ids| => Paid(history, start, ids[i]))
  }

  lemma {:induction false} EachAddsUp(ids: seq<string>, history: seq<Event>, start: nat)
    requires NoDup(ids)
    requires forall i :: 0 <= i < |history| && Pays(history[i], start) ==>
             history[i].what.player.Some? && history[i].what.player.value in ids
    ensures Sum(PaidByEach(ids, history, start)) == RoundTotal(history, start)
  {
    if history == [] {
      ZeroSum(PaidByEach(ids, history, start));
    } else {
      var before, last := history[..|history| - 1], history[|history| - 1];
      EachAddsUp(ids, before, start);
      var each := PaidByEach(ids, before, start);
      if Pays(last, start) {
        var k := IndexOf(ids, last.what.player.value);
        forall i | 0 <= i < |ids| && i != k ensures ids[i] != ids[k] {}
        assert PaidByEach(ids, history, start) == each[k := each[k] + last.what.amount];
        SumUpdate(each, k, each[k] + last.what.amount);
      } else {
        assert PaidByEach(ids, history, start) == each;
      }
    }
  }

  lemma PotIsHistory(s: State)
    requires Inv(s)
    ensures s.pot == RoundTotal(s.history, s.roundStart) == Sum(Contributions(s.players))
  {
    ConfigDistinct(s.config);
    hide NoDup, ShowOk, SideShowOk, SideShowsOk, LedgerOk, DealtOk, HistoryOk, StakesOk, Sum, Paid;
    EachAddsUp(s.config.playerIds, s.history, s.roundStart);
    assert PaidByEach(s.config.playerIds, s.history, s.roundStart) == Contributions(s.players);
  }

  // ---- the minimums

  // Within a round neither minimum ever falls, and a blind bet is always the
  // seen one divided by the multiplier, rounded up.
  lemma MinimumsRise(s: State, command: Command)
    requires Inv(s) && s.status == InProgress && Decide(s, command).Accepted?
    ensures var t := Next(s, Decide(s, command)); var m := s.config.rules.multiplier;
            && (t.status == InProgress || t.status == Finished) && t.config == s.config && m >= 1
            && t.currentSeenBet >= s.currentSeenBet && t.currentBlindBet >= s.currentBlindBet
            && t.currentBlindBet == BlindFor(t.currentSeenBet, m)
            && (t.currentBlindBet - 1) * m < t.currentSeenBet <= t.currentBlindBet * m
            && t.pot >= s.pot
  {
    hide Inv, Decide, FairDeck, BlindFor;
    MinimumsStep(s, command);
    var t := Next(s, Decide(s, command));
    var m := s.config.rules.multiplier;
    CeilCovers(t.currentSeenBet, m);
    assert (t.currentBlindBet - 1) * m == t.currentBlindBet * m - m;
  }

  // What no command but a bet changes in the stakes, and no command lowers in the pot.
  ghost predicate SameStakes(s: State, t: State) {
    && (t.status == InProgress || t.status == Finished) && t.config == s.config && t.pot >= s.pot
    && t.currentSeenBet == s.currentSeenBet && t.currentBlindBet == s.currentBlindBet
  }

  lemma FinishStakes(c: State, requester: Option<string>, specs: seq<Spec>)
    ensures var r := Finish(Settle(c, requester), specs);
            r.Accepted? ==> SameStakes(c, r.candidate)
  {
    hide Actives, Only, Clockwise, Shares, NetChanges, IndexOf, Graded, Best, BestIds, Without;
  }

  lemma PassedStakes(c: State, specs: seq<Spec>)
    requires c.status == InProgress
    ensures Passed(c, specs).Accepted? ==> SameStakes(c, Passed(c, specs).candidate)
  {
    hide NextSeat;
  }

  lemma ResponseStakes(s: State, id: string, showing: bool)
    ensures RespondShow(s, id, showing).Accepted? ==> SameStakes(s, RespondShow(s, id, showing).candidate)
  {
    hide Finish, Settle, SeatOf, WithPlayer;
    if s.status == InProgress && s.pendingShow.Some? && s.pendingShow.value.target == id {
      if showing {
        FinishStakes(s, Some(s.pendingShow.value.requester), []);
      } else {
        var seat := SeatOf(s.players, id);
        var players := if seat.Some? then WithPlayer(s.players, s.players[seat.value].(status := Folded))
            else s.players;
        FinishStakes(s.(players := players), None, [Note(PlayerFolded, id)]);
      }
    }
  }

  lemma FoldStakes(s: State, id: string)
    requires s.status == InProgress && s.pendingShow.None?
    ensures Fold(s, id).Accepted? ==> SameStakes(s, Fold(s, id).candidate)
  {
    hide Finish, Settle, RequireTurn, WithPlayer, Actives, Passed;
    if RequireTurn(s, id).Turn? {
      var seat := RequireTurn(s, id).seat;
      var c := s.(players := WithPlayer(s.players, s.players[seat].(status := Folded)));
      FinishStakes(c, None, [Note(PlayerFolded, id)]);
      PassedStakes(c, [Note(PlayerFolded, id)]);
    }
  }

  lemma LeaveStakes(s: State, id: string)
    requires Inv(s) && s.status == InProgress && FoldForLeave(s, id).Accepted?
    ensures SameStakes(s, FoldForLeave(s, id).candidate)
  {
    hide Inv, Finish, Settle, SeatOf, Actives, Passed, FoldForLeave, LeftSpecs, Keeps, CurrentId, Interrupts;
    LeaveKeeps(s, id);
    var seat := SeatOf(s.players, id).value;
    LeaveShape(s, seat);
    var c := Left(s, seat);
    FinishStakes(c, None, LeftSpecs(s, seat));
    PassedStakes(c, LeftSpecs(s, seat));
  }

  lemma SideStakes(s: State, id: string, accept: bool)
    requires s.status == InProgress
    ensures RespondSideShow(s, id, accept).Accepted? ==> SameStakes(s, RespondSideShow(s, id, accept).candidate)
  {
    hide SeatOf, WithPlayer, Compare, NextSeat, IndexOf;
  }

  // Everything but betting, showing and asking for a side-show, which pay.
  lemma FreeStakes(s: State, command: Command)
    requires Inv(s) && s.status == InProgress && Decide(s, command).Accepted?
    requires command.Player? ==> !command.action.ActBet? && !command.action.ActShow? && !command.action.ActRequestSideShow?
    ensures SameStakes(s, Decide(s, command).candidate)
  {
    hide Inv, Fold, FoldForLeave, RespondShow, RespondSideShow, RequireTurn, SeeBlock, WithPlayer, CurrentId;
    match command
    case Start =>
    case NextRound(id, roster) =>
    case LeaveTable(id) => LeaveStakes(s, id);
    case Player(id, action, deck) =>
      match action {
        case ActFold =>
          if s.pendingShow.Some? { FoldAnswers(s, id); ResponseStakes(s, id, false); } else { FoldStakes(s, id); }
        case ActReveal => ResponseStakes(s, id, true);
        case ActAcceptSideShow => SideStakes(s, id, true);
        case ActDeclineSideShow => SideStakes(s, id, false);
        case _ =>
      }
  }

  lemma FoldAnswers(s: State, id: string)
    requires s.pendingShow.Some?
    ensures Fold(s, id) == RespondShow(s, id, false)
  {
  }

  lemma PayingStakes(s: State, command: Command)
    requires Inv(s) && s.status == InProgress && Decide(s, command).Accepted?
    requires command.Player? && (command.action.ActShow? || command.action.ActRequestSideShow?)
    ensures SameStakes(s, Decide(s, command).candidate)
  {
    hide Inv, RequireTurn, ShowBlock, SideShowBlock, WithPlayer, OtherActive, PreviousSeen, ShowCost,
      RequiredBet, IndexOf, StakesOk, RulesFormed;
    InRound(s);
    CostNonnegative(s, s.players[RequireTurn(s, command.id).seat]);
  }

  // Only a bet moves the minimums, and only upwards.
  lemma MinimumsStep(s: State, command: Command)
    requires Inv(s) && s.status == InProgress && Decide(s, command).Accepted?
    ensures var t := Decide(s, command).candidate; var m := s.config.rules.multiplier;
            && (t.status == InProgress || t.status == Finished) && t.config == s.config && t.pot >= s.pot && m >= 1
            && t.currentSeenBet >= s.currentSeenBet && t.currentBlindBet >= s.currentBlindBet
            && t.currentBlindBet == BlindFor(t.currentSeenBet, m)
  {
    hide Inv, Decide, BlindFor, SideShowsOk, DealtOk, MoneyOk, HistoryOk, ShowOk, SideShowOk, BettingOk,
      CountersOk, NoDup, Roster;
    InRound(s);
    if command.Player? && command.action.ActBet? {
      BetMinimums(s, command);
    } else if command.Player? && (command.action.ActShow? || command.action.ActRequestSideShow?) {
      PayingStakes(s, command);
    } else {
      FreeStakes(s, command);
    }
  }

  lemma BetMinimums(s: State, command: Command)
    requires Inv(s) && s.status == InProgress && command.Player? && command.action.ActBet?
             && Decide(s, command).Accepted?
    ensures var t := Decide(s, command).candidate; var m := s.config.rules.multiplier;
            && t.status == InProgress && t.config == s.config && t.pot >= s.pot && m >= 1
            && t.currentSeenBet >= s.currentSeenBet && t.currentBlindBet >= s.currentBlindBet
            && t.currentBlindBet == BlindFor(t.currentSeenBet, m)
  {
    hide Inv, BlindFor, RequireTurn, SeenMinimum, RequiredBet, NextSeat, Betted, StakesOk, RulesFormed, Bet;
    InRound(s);
    BetKeeps(s, command.id, command.action.amount);
    BetShape(s, command.id, command.action.amount);
    BetRaises(s, s.players[RequireTurn(s, command.id).seat], command.action.amount);
  }

  // ---- what is advertised

  datatype ActionName =
    | CanStartNextRound | CanDeal | CanCut | CanSkipCut | CanFold | CanBet | CanSee | CanShow | CanRequestSideShow
    | CanAcceptSideShow | CanDeclineSideShow | CanReveal

  // What the player to move may do.
  function TurnKinds(s: State, id: string): seq<ActionName> {
    [CanFold, CanBet]
    + (if SeeBlock(s, id).None? then [CanSee] else [])
    + (if ShowBlock(s, id).None? then [CanShow] else [])
    + (if SideShowBlock(s, id).None? then [CanRequestSideShow] else [])
  }

  // allowed_actions' kinds; None where the player is unknown.
  function Kinds(s: State, id: string): Option<seq<ActionName>> {
    var seat := SeatOf(s.players, id);
    if seat.None? then None
    else
      var current := CurrentId(s) == Some(id);
      Some((if s.status == Finished && WonLast(s, id) then [CanStartNextRound] else [])
           + (if current && s.status == AwaitingDeal then [CanDeal]
              else if current && s.status == AwaitingCut then [CanCut, CanSkipCut] else [])
           + (if s.status == InProgress && IsActive(s.players[seat.value]) && current
                  && s.pendingSideShow.None? && s.pendingShow.None? then
                TurnKinds(s, id)
              else [])
           + (if s.status == InProgress && s.pendingSideShow.Some? && s.pendingSideShow.value.target == id then
                [CanAcceptSideShow, CanDeclineSideShow] else [])
           + (if s.pendingShow.Some? && s.pendingShow.value.target == id then [CanReveal, CanFold] else []))
  }

  function NameOf(action: Action): ActionName {
    match action
    case ActBet(_) => CanBet
    case ActSee => CanSee
    case ActFold => CanFold
    case ActShow => CanShow
    case ActReveal => CanReveal
    case ActStartNextRound => CanStartNextRound
    case ActDeal => CanDeal
    case ActCut(_) => CanCut
    case ActSkipCut => CanSkipCut
    case ActRequestSideShow => CanRequestSideShow
    case ActAcceptSideShow => CanAcceptSideShow
    case ActDeclineSideShow => CanDeclineSideShow
  }

  // A bet of at least the advertised minimum, a cut inside the deck.
  predicate Fits(s: State, seat: nat, action: Action)
    requires seat < |s.players|
  {
    match action
    case ActBet(amount) => amount >= RequiredBet(s, s.players[seat])
    case ActCut(position) => 1 <= position < 52
    case _ => true
  }

  lemma TurnMeans(s: State, id: string)
    requires Inv(s) && SeatOf(s.players, id).Some?
    ensures RequireTurn(s, id).Turn? <==>
              s.status == InProgress && IsActive(s.players[SeatOf(s.players, id).value]) && CurrentId(s) == Some(id)
              && s.pendingSideShow.None? && s.pendingShow.None?
    ensures RequireTurn(s, id).Turn? ==> RequireTurn(s, id).seat == SeatOf(s.players, id).value
    ensures s.pendingShow.Some? ==> s.status == InProgress
  {
    hide LedgerOk, MoneyOk, SideShowsOk, DealtOk, StakesOk, FinishedOk, HistoryOk, WaitingOk, PreparationOk,
      ShowKnown, ConfigFormed, SideShowOk, BettingOk;
  }

  // When each action is advertised.
  predicate Open(s: State, id: string, name: ActionName)
    requires SeatOf(s.players, id).Some?
  {
    var current := CurrentId(s) == Some(id);
    var turn := s.status == InProgress && IsActive(s.players[SeatOf(s.players, id).value]) && current
                && s.pendingSideShow.None? && s.pendingShow.None?;
    match name
    case CanStartNextRound => s.status == Finished && WonLast(s, id)
    case CanDeal => current && s.status == AwaitingDeal
    case CanCut => current && s.status == AwaitingCut
    case CanSkipCut => current && s.status == AwaitingCut
    case CanFold => turn || (s.pendingShow.Some? && s.pendingShow.value.target == id)
    case CanBet => turn
    case CanSee => turn && SeeBlock(s, id).None?
    case CanShow => turn && ShowBlock(s, id).None?
    case CanRequestSideShow => turn && SideShowBlock(s, id).None?
    case CanAcceptSideShow => AnswersSideShow(s, id)
    case CanDeclineSideShow => AnswersSideShow(s, id)
    case CanReveal => s.pendingShow.Some? && s.pendingShow.value.target == id
  }

  lemma TurnKindsAre(s: State, id: string, name: ActionName)
    ensures name in TurnKinds(s, id) <==>
              name == CanFold || name == CanBet || (name == CanSee && SeeBlock(s, id).None?)
                  || (name == CanShow && ShowBlock(s, id).None?)
              || (name == CanRequestSideShow && SideShowBlock(s, id).None?)
  {
    hide SeeBlock, ShowBlock, SideShowBlock;
  }

  lemma KindsAre(s: State, id: string, name: ActionName)
    requires SeatOf(s.players, id).Some?
    ensures Kinds(s, id).Some? && (name in Kinds(s, id).value <==> Open(s, id, name))
  {
    TurnKindsAre(s, id, name);
    hide SeatOf, CurrentId, SeeBlock, ShowBlock, SideShowBlock, WonLast, TurnKinds;
  }

  // The advertised actions, with legal amounts, are exactly the accepted ones.
  lemma KindsExact(s: State, id: string, action: Action, deck: seq<Card>)
    requires Inv(s) && FullDeck(deck) && SeatOf(s.players, id).Some?
    ensures Kinds(s, id).Some?
    ensures Apply(s, id, action, deck).Accepted?
            <==> NameOf(action) in Kinds(s, id).value && Fits(s, SeatOf(s.players, id).value, action)
  {
    hide Inv, FullDeck, RequireTurn, SeeBlock, ShowBlock, SideShowBlock, CurrentId, SeatOf, Bet, See, Fold,
      RequestShow, RespondShow, PrepareNextRound,
      DealCards, CutDeck, CompleteDeal, RequestSideShow, RespondSideShow, Keeps, Kinds, WonLast;
    TurnMeans(s, id);
    KindsAre(s, id, NameOf(action));
    match action
    case ActBet(amount) => BetKeeps(s, id, amount);
    case ActSee => SeeKeeps(s, id);
    case ActFold => FoldKeeps(s, id);
    case ActShow => ShowKeeps(s, id);
    case ActReveal => RespondKeeps(s, id, true);
    case ActStartNextRound => NextRoundKeeps(s, id, None);
    case ActDeal => DealKeeps(s, id, deck);
    case ActCut(position) => CutKeepsInv(s, id, position);
    case ActSkipCut => CompleteDealKeeps(s, id, None);
    case ActRequestSideShow => RequestKeeps(s, id);
    case ActAcceptSideShow => RespondSideKeeps(s, id, true);
    case ActDeclineSideShow => RespondSideKeeps(s, id, false);
  }

  // A started table is never stuck: some seated player has something to do.
  lemma SomeoneCanAct(s: State) returns (id: string, action: ActionName)
    requires Inv(s) && s.status != Waiting
    ensures id in s.config.playerIds && Kinds(s, id).Some? && action in Kinds(s, id).value
  {
    hide Inv, ConfigFormed, RequireTurn, SeeBlock, ShowBlock, SideShowBlock, Kinds, Roster, NoDup, WonLast, CurrentId;
    InRoster(s);
    if s.status == Finished {
      WinnerCanStart(s);
      id := s.settlement.value.winners[0];
      WinnerSits(s, id);
      action := CanStartNextRound;
    } else {
      SeatTaken(s);
      var seat := s.currentSeat.value;
      id := s.players[seat].id;
      SeatIs(s.config, s.players, seat);
      action := TurnHas(s, seat);
    }
    KindsAre(s, id, action);
  }

  lemma WinnerSits(s: State, id: string)
    requires Roster(s.config, s.players) && NoDup(s.config.playerIds)
             && ConfigFormed(Config(s.config.playerIds, s.config.rules, id))
    requires s.settlement.Some? && s.settlement.value.winners != [] && id == s.settlement.value.winners[0]
    ensures SeatOf(s.players, id).Some? && id in s.config.playerIds && WonLast(s, id)
  {
    hide NoDup;
    SeatIs(s.config, s.players, IndexOf(s.config.playerIds, id));
  }

  lemma TurnHas(s: State, seat: nat) returns (action: ActionName)
    requires Inv(s) && s.status != Waiting && s.status != Finished && s.currentSeat == Some(seat) && seat < |s.players|
    requires SeatOf(s.players, s.players[seat].id) == Some(seat)
    ensures Open(s, s.players[seat].id, action)
  {
    hide Inv, SeatOf, SeeBlock, ShowBlock, SideShowBlock, WonLast, Roster, NoDup, DealtOk, MoneyOk, StakesOk,
      HistoryOk, SideShowsOk;
    if s.status == AwaitingDeal {
      action := CanDeal;
    } else if s.status == AwaitingCut {
      action := CanCut;
    } else {
      InRound(s);
      if s.pendingShow.Some? {
        action := CanReveal;
      } else if s.pendingSideShow.Some? {
        SidePlaces(s);
        action := CanAcceptSideShow;
      } else {
        action := CanFold;
      }
    }
  }

  lemma SeatTaken(s: State)
    requires Inv(s) && s.status != Waiting && s.status != Finished
    ensures s.currentSeat.Some? && s.currentSeat.value < |s.players| && Roster(s.config, s.players)
  {
    hide LedgerOk, MoneyOk, SideShowsOk, DealtOk, StakesOk, FinishedOk, HistoryOk, WaitingOk, ShowOk,
      SideShowOk, ConfigFormed, NoDup;
  }
}
