// Whole matches: restoring a record of commands, what every run keeps, and how
// far a match is from its end.
module CallBreakRuns {
  import opened Prelude
  import opened Cards
  import opened Dealing
  import opened CallBreakRules
  import opened CallBreakDeals
  import opened CallBreakMatch
  import opened CallBreakInvariant
  import opened CallBreakPlay

  // A recorded command; the controller has no actor.
  datatype Entry = FromController(command: Control) | FromPlayer(actor: nat, action: Action)

  function Step(s: Match, e: Entry): Outcome
    requires ConfigFormed(s.config) && s.initialDealer > 0
  {
    match e
    case FromController(command) => ApplyControl(s, command)
    case FromPlayer(actor, action) => ApplyPlayer(s, actor, action)
  }

  // ---- every command keeps the invariant

  lemma DistributionKeeps(s: Match, id: nat)
    requires Inv(s)
    ensures Keeps(ApplyPlayer(s, id, StartDistribution))
  {
    hide DealAudit, ArchiveOk, TricksFormed, Settled, FullDeck, Distribute, Unplayed;
    if s.phase == AwaitingDistribution && s.preparation.Some? {
      var prep := s.preparation.value;
      DistributeKeeps(s, prep.deck, prep.number, prep.attempt, prep.dealer, []);
    }
  }

  lemma InvBasics(s: Match)
    requires Inv(s)
    ensures ConfigFormed(s.config) && 1 <= s.initialDealer <= s.config.count
    ensures s.phase == HandReview || s.phase == Bidding || s.phase == Playing ==>
              s.currentDeal.Some? && |s.currentDeal.value.players| == s.config.count
  {
    hide ArchiveOk, TricksFormed, FullDeck, Settled, ReplayTricks, HandsOk, TricksOk, BidsOk, AcceptedOk;
  }

  lemma PlayerKeeps(s: Match, id: nat, action: Action)
    requires Inv(s)
    ensures ConfigFormed(s.config) && Keeps(ApplyPlayer(s, id, action))
  {
    InvBasics(s);
    hide Inv, ApplyPreparation, ApplyReview, ApplyBid, ApplyPlay, Distribute, CurrentOf;
    if action.StartDistribution? {
      DistributionKeeps(s, id);
    } else if action.ShuffleDeck? || action.CutDeck? || action.SkipCut? {
      PreparationKeeps(s, id, action);
    } else if 1 <= id <= s.config.count && s.phase == ExpectedPhase(action) {
      if action.PlaceBid? {
        if CurrentOf(s) == Some(id) { BidKeeps(s, id, action.amount); }
      } else if action.PlayCard? {
        PlayKeeps(s, id, action.card);
      } else {
        ReviewKeeps(s, id, action);
      }
    }
  }

  lemma StepKeeps(s: Match, e: Entry)
    requires Inv(s)
    ensures ConfigFormed(s.config) && s.initialDealer > 0 && Keeps(Step(s, e))
  {
    InvBasics(s);
    hide Inv, ApplyPlayer, ApplyControl;
    match e
    case FromController(command) => ControlKeeps(s, command);
    case FromPlayer(actor, action) => PlayerKeeps(s, actor, action);
  }

  // ---- what no command changes

  lemma StepFrame(s: Match, e: Entry)
    requires ConfigFormed(s.config) && s.initialDealer > 0 && Step(s, e).Accepted?
    ensures var t := Step(s, e).next;
            && t.config == s.config && t.initialDealer == s.initialDealer && t.revision == s.revision + 1
            && s.completed <= t.completed && s.abandoned <= t.abandoned && s.phase != MatchComplete
  {
    hide DealAudit, ValidatePlay, FullDeck, ScoreDeal, TrickFormed, NewDeal, CurrentOf, Cut, RedealAllowed;
  }

  // ---- restoring a record

  function Restored(config: Config, initialDealer: nat, entries: seq<Entry>): (r: Outcome)
    requires ConfigFormed(config) && 1 <= initialDealer <= config.count
    ensures r.Accepted? ==> r.next.config == config && r.next.initialDealer == initialDealer
  {
    if entries == [] then Accepted(NewMatch(config, initialDealer))
    else
      var before := Restored(config, initialDealer, entries[..|entries| - 1]);
      if before.Accepted? then
        var after := Step(before.next, entries[|entries| - 1]);
        assert after.Accepted? ==> after.next.config == config && after.next.initialDealer == initialDealer by {
          if after.Accepted? { StepFrame(before.next, entries[|entries| - 1]); }
        }
        after
      else before
  }

  // Replay.restore: every command through the reducer, stopping at a rejection.
  method Restore(config: Config, initialDealer: nat, entries: seq<Entry>) returns (r: Outcome)
    requires ConfigFormed(config) && 1 <= initialDealer <= config.count
    ensures r == Restored(config, initialDealer, entries)
    ensures r != Failed && r != Rejected(InvalidDistribution) && (r.Accepted? ==> AuditedMatch(r.next))
  {
    hide Step, Inv;
    var state := NewMatch(config, initialDealer);
    assert entries[..0] == [];
    FreshInv(config, initialDealer);
    for i := 0 to |entries|
      invariant Restored(config, initialDealer, entries[..i]) == Accepted(state)
      invariant Inv(state)
    {
      assert entries[..i + 1][..i] == entries[..i];
      StepKeeps(state, entries[i]);
      r := Step(state, entries[i]);
      if !r.Accepted? {
        RejectedStays(config, initialDealer, entries, i + 1);
        return;
      }
      state := r.next;
    }
    assert entries[..|entries|] == entries;
    InvAudited(state);
    r := Accepted(state);
  }

  ghost predicate AuditedMatch(s: Match) {
    Formed(s) && AuditMatch(s)
  }

  lemma InvAudited(s: Match)
    requires Inv(s)
    ensures AuditedMatch(s)
  {
  }

  lemma {:induction false} RejectedStays(config: Config, initialDealer: nat, entries: seq<Entry>, k: nat)
    requires ConfigFormed(config) && 1 <= initialDealer <= config.count && k <= |entries|
    requires !Restored(config, initialDealer, entries[..k]).Accepted?
    ensures Restored(config, initialDealer, entries) == Restored(config, initialDealer, entries[..k])
  {
    hide Step;
    if k < |entries| {
      assert entries[..|entries| - 1][..k] == entries[..k];
      RejectedStays(config, initialDealer, entries[..|entries| - 1], k);
    } else {
      assert entries[..k] == entries;
    }
  }

  // Every record that restores, restores to a match in which the audit finds
  // nothing; no record makes the reducer raise or lose the deck.
  lemma {:induction false} RunAudited(config: Config, initialDealer: nat, entries: seq<Entry>)
    requires ConfigFormed(config) && 1 <= initialDealer <= config.count
    ensures var r := Restored(config, initialDealer, entries);
            && r != Failed && r != Rejected(InvalidDistribution)
            && (r.Accepted? ==> Inv(r.next) && AuditedMatch(r.next) && r.next.revision == |entries|)
  {
    hide Step, Inv;
    if entries == [] {
      FreshInv(config, initialDealer);
      InvAudited(NewMatch(config, initialDealer));
    } else {
      var init, last := entries[..|entries| - 1], entries[|entries| - 1];
      RunAudited(config, initialDealer, init);
      var before := Restored(config, initialDealer, init);
      if before.Accepted? {
        StepKeeps(before.next, last);
        var after := Step(before.next, last);
        if after.Accepted? {
          StepFrame(before.next, last);
          InvAudited(after.next);
        }
      }
    }
  }
}
