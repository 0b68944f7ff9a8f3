// What every reachable table satisfies. It implies the audit, adds that the
// pending show is the round's last recorded request, and survives every command.
// Here also what a commit inside a round has to show: money, history, cards.
module FlushInvariant {
  import opened Prelude
  import opened Cards
  import opened Dealing
  import opened FlushEvaluator
  import opened FlushModels
  import opened FlushAudit
  import opened FlushSteps

  ghost predicate ShowKnown(s: State) {
    s.pendingShow.Some? ==>
      var e := LastShow(s.history, s.roundStart);
      e.Some? && e.value.what.player == Some(s.pendingShow.value.requester)
          && e.value.what.target == Some(s.pendingShow.value.target)
  }

  ghost predicate Inv(s: State) {
    && ConfigFormed(s.config) && Audit(s)
    && (s.status == Waiting ==> s == Fresh(s.config))
    && (s.status != Waiting ==> HistoryOk(s) && 1 <= s.roundStart <= s.revision)
    && ShowKnown(s)
  }

  // ---- the history grows by one numbered batch

  lemma HistoryGrows(s: State, t: State, specs: seq<Spec>)
    requires HistoryOk(s) || (s.history == [] && s.revision == 0)
    requires specs != [] && t.revision == s.revision + 1
    requires t.history == s.history + Numbered(specs, |s.history|, s.revision + 1)
    ensures HistoryOk(t)
  {
  }

  predicate PayingKind(kind: Kind) {
    kind == BootCollected || kind == BetPlaced || kind == ShowRequested || kind == SideShowRequested
  }

  function PaidBy(specs: seq<Spec>, id: string): int {
    if specs == [] then 0
    else
      var last := specs[|specs| - 1];
      PaidBy(specs[..|specs| - 1], id) + if PayingKind(last.kind) && last.player == Some(id) then last.amount else 0
  }

  lemma {:induction false} PaidGrows(history: seq<Event>, specs: seq<Spec>, revision: nat, start: nat, id: string)
    requires revision >= start
    ensures Paid(history + Numbered(specs, |history|, revision), start, id)
            == Paid(history, start, id) + PaidBy(specs, id)
  {
    var all := history + Numbered(specs, |history|, revision);
    if specs == [] {
      assert all == history;
    } else {
      var init := specs[..|specs| - 1];
      PaidGrows(history, init, revision, start, id);
      assert all[..|all| - 1] == history + Numbered(init, |history|, revision);
    }
  }

  lemma {:induction false} NothingPaidYet(history: seq<Event>, start: nat, id: string)
    requires forall i :: 0 <= i < |history| ==> history[i].revision < start
    ensures Paid(history, start, id) == 0 && LastShow(history, start).None?
  {
    if history != [] { NothingPaidYet(history[..|history| - 1], start, id); }
  }

  predicate NoMoney(specs: seq<Spec>) {
    forall i :: 0 <= i < |specs| ==> !PayingKind(specs[i].kind)
  }

  lemma {:induction false} NoMoneyPaid(specs: seq<Spec>, id: string)
    requires NoMoney(specs)
    ensures PaidBy(specs, id) == 0
  {
    if specs != [] { NoMoneyPaid(specs[..|specs| - 1], id); }
  }

  lemma {:induction false} PaidByConcat(a: seq<Spec>, b: seq<Spec>, id: string)
    ensures PaidBy(a + b, id) == PaidBy(a, id) + PaidBy(b, id)
  {
    if b == [] {
      assert a + b == a;
    } else {
      assert (a + b)[..|a + b| - 1] == a + b[..|b| - 1];
      PaidByConcat(a, b[..|b| - 1], id);
    }
  }

  // A single payment followed by events that carry no money.
  lemma OnePayment(first: Spec, rest: seq<Spec>, id: string)
    requires PayingKind(first.kind) && NoMoney(rest)
    ensures PaidBy([first] + rest, id) == if first.player == Some(id) then first.amount else 0
  {
    PaidByConcat([first], rest, id);
    NoMoneyPaid(rest, id);
    assert [first][..0] == [];
    assert PaidBy([first], id) == PaidBy([], id) + if first.player == Some(id) then first.amount else 0;
  }

  lemma {:induction false} LastShowGrows(history: seq<Event>, specs: seq<Spec>, revision: nat, start: nat)
    requires forall i :: 0 <= i < |specs| ==> specs[i].kind != ShowRequested
    ensures LastShow(history + Numbered(specs, |history|, revision), start) == LastShow(history, start)
  {
    var all := history + Numbered(specs, |history|, revision);
    if specs == [] {
      assert all == history;
    } else {
      var init := specs[..|specs| - 1];
      LastShowGrows(history, init, revision, start);
      assert all[..|all| - 1] == history + Numbered(init, |history|, revision);
    }
  }

  lemma LastShowNew(history: seq<Event>, first: Spec, rest: seq<Spec>, revision: nat, start: nat)
    requires first.kind == ShowRequested && revision >= start
    requires forall i :: 0 <= i < |rest| ==> rest[i].kind != ShowRequested
    ensures LastShow(history + Numbered([first] + rest, |history|, revision), start)
            == Some(Event(|history| + 1, revision, first))
  {
    var h := history + [Event(|history| + 1, revision, first)];
    assert history + Numbered([first] + rest, |history|, revision) == h + Numbered(rest, |h|, revision);
    LastShowGrows(h, rest, revision, start);
    assert h[..|h| - 1] == history;
  }

  // ---- money against history

  predicate Payable(specs: seq<Spec>, ids: seq<string>) {
    forall i :: 0 <= i < |specs| && PayingKind(specs[i].kind) ==>
      specs[i].player.Some? && specs[i].player.value in ids && specs[i].amount >= 0
  }

  // One seat pays and the history says so.
  lemma MoneyGrows(s: State, t: State, specs: seq<Spec>, payer: nat, amount: int)
    requires Roster(s.config, s.players) && NoDup(s.config.playerIds) && MoneyOk(s) && s.roundStart <= s.revision + 1
    requires t.config == s.config && t.roundStart == s.roundStart && |t.players| == |s.players| && payer < |s.players|
    requires t.history == s.history + Numbered(specs, |s.history|, s.revision + 1) && Payable(specs, s.config.playerIds)
    requires forall k :: 0 <= k < |s.players| ==>
               t.players[k].id == s.players[k].id && t.players[k].contribution
                   == s.players[k].contribution + if k == payer then amount else 0
    requires forall id :: PaidBy(specs, id) == if id == s.players[payer].id then amount else 0
    requires t.pot == s.pot + amount
    ensures MoneyOk(t)
  {
    assert Contributions(t.players) == Contributions(s.players)[payer := s.players[payer].contribution + amount];
    SumUpdate(Contributions(s.players), payer, s.players[payer].contribution + amount);
    PaymentsGrow(s, t, specs);
    forall k | 0 <= k < |s.players| ensures t.players[k].contribution
        == Paid(t.history, t.roundStart, t.players[k].id) {
      PaidGrows(s.history, specs, s.revision + 1, s.roundStart, s.players[k].id);
      if k != payer { DistinctIds(s.config, s.players, k, payer); }
    }
  }

  lemma PaymentsGrow(s: State, t: State, specs: seq<Spec>)
    requires PaymentsOk(s) && t.config == s.config && t.roundStart == s.roundStart
    requires t.history == s.history + Numbered(specs, |s.history|, s.revision + 1) && Payable(specs, s.config.playerIds)
    ensures PaymentsOk(t)
  {
    forall i | 0 <= i < |t.history| && Pays(t.history[i], t.roundStart)
      ensures t.history[i].what.player.Some? && t.history[i].what.player.value in t.config.playerIds
              && t.history[i].what.amount >= 0
    {
      if i < |s.history| { assert t.history[i] == s.history[i]; }
          else { assert t.history[i].what == specs[i - |s.history|]; }
    }
  }

  // ---- seats that keep their cards

  predicate SeatKept(p: Player, q: Player) {
    q.id == p.id && q.cards == p.cards && (q.status == p.status || q.status == Folded) && CountersOk(q)
  }

  predicate SeatsKept(a: seq<Player>, b: seq<Player>) {
    |a| == |b| && forall k :: 0 <= k < |a| ==> SeatKept(a[k], b[k])
  }

  lemma {:induction false} SeatOfSame(a: seq<Player>, b: seq<Player>, id: string)
    requires |a| == |b| && forall k :: 0 <= k < |a| ==> a[k].id == b[k].id
    ensures SeatOf(a, id) == SeatOf(b, id)
  {
    if a != [] { SeatOfSame(a[..|a| - 1], b[..|b| - 1], id); }
  }

  lemma CardsKept(a: seq<Player>, b: seq<Player>, id: string)
    requires SeatsKept(a, b)
    ensures SeatOf(a, id) == SeatOf(b, id) && CardsOf(a, id) == CardsOf(b, id)
  {
    SeatOfSame(a, b, id);
  }

  lemma ShownKept(s: State, t: State, shown: seq<ShownHand>)
    requires SeatsKept(s.players, t.players) && ShownOk(s, shown)
    ensures ShownOk(t, shown)
  {
    forall i | 0 <= i < |shown| ensures CardsOf(t.players, shown[i].id) == Some(shown[i].cards) {
      CardsKept(s.players, t.players, shown[i].id);
    }
  }

  lemma SideShowsKept(s: State, t: State)
    requires SeatsKept(s.players, t.players) && t.sideShows == s.sideShows && SideShowsOk(s)
    ensures SideShowsOk(t)
  {
    hide SeatKept;
    forall i | 0 <= i < |t.sideShows| ensures SideShowResultOk(t, t.sideShows[i]) {
      ResultKept(s, t, s.sideShows[i]);
    }
  }

  lemma ResultKept(s: State, t: State, r: SideShowResult)
    requires SeatsKept(s.players, t.players) && SideShowResultOk(s, r)
    ensures SideShowResultOk(t, r)
  {
    CardsKept(s.players, t.players, r.requester);
    CardsKept(s.players, t.players, r.target);
    SeatOfSame(s.players, t.players, r.loser);
    var k := SeatOf(s.players, r.loser).value;
    assert SeatKept(s.players[k], t.players[k]);
  }

  lemma DealtKept(s: State, t: State)
    requires DealtOk(s) && SeatsKept(s.players, t.players) && t.stock == s.stock
    ensures DealtOk(t)
  {
    assert Hands(t.players) == Hands(s.players);
  }

  // ---- who is active

  lemma IdsAppend(players: seq<Player>, p: Player)
    ensures Ids(players + [p]) == Ids(players) + [p.id]
  {
  }

  lemma {:induction false} ActivesSame(a: seq<Player>, b: seq<Player>)
    requires |a| == |b| && forall k :: 0 <= k < |a| ==> a[k].id == b[k].id && a[k].status == b[k].status
    ensures |Actives(a)| == |Actives(b)| && Ids(Actives(a)) == Ids(Actives(b))
  {
    if a != [] {
      var k := |a| - 1;
      ActivesSame(a[..k], b[..k]);
      IdsAppend(Actives(a[..k]), a[k]);
      IdsAppend(Actives(b[..k]), b[k]);
      hide Ids;
    }
  }

  lemma {:induction false} ActivesFold(players: seq<Player>, seat: nat, q: Player)
    requires seat < |players| && IsActive(players[seat]) && !IsActive(q)
    ensures |Actives(players[seat := q])| == |Actives(players)| - 1
  {
    var after := players[seat := q];
    if seat == |players| - 1 {
      assert after[..|after| - 1] == players[..|players| - 1];
    } else {
      assert after[..|after| - 1] == players[..|players| - 1][seat := q];
      ActivesFold(players[..|players| - 1], seat, q);
    }
  }

  lemma {:induction false} ActivesDistinct(config: Config, players: seq<Player>, k: nat)
    requires Roster(config, players) && NoDup(config.playerIds) && k <= |players|
    ensures NoDup(Ids(Actives(players[..k])))
  {
    if k > 0 {
      ActivesDistinct(config, players, k - 1);
      var init, last := players[..k - 1], players[k - 1];
      assert players[..k][..k - 1] == init;
      var ids := Ids(Actives(init));
      forall i | 0 <= i < |ids| ensures ids[i] != last.id {
        var p := Actives(init)[i];
        assert p in Actives(init);
        var j :| 0 <= j < |init| && init[j] == p;
        DistinctIds(config, players, j, k - 1);
      }
      if IsActive(last) { assert Ids(Actives(players[..k])) == ids + [last.id]; }
    }
  }

  lemma ActiveIds(config: Config, players: seq<Player>)
    requires Roster(config, players) && NoDup(config.playerIds)
    ensures NoDup(Ids(Actives(players)))
    ensures forall id :: id in Ids(Actives(players)) <==>
            exists k :: 0 <= k < |players| && IsActive(players[k]) && players[k].id == id
    ensures |Elems(Ids(Actives(players)))| == |Actives(players)|
  {
    assert players[..|players|] == players;
    ActivesDistinct(config, players, |players|);
    NoDupSize(Ids(Actives(players)));
    var ids := Ids(Actives(players));
    forall id ensures id in ids <==> exists k :: 0 <= k < |players| && IsActive(players[k]) && players[k].id == id {
      if id in ids {
        var i :| 0 <= i < |ids| && ids[i] == id;
        assert Actives(players)[i] in Actives(players);
      }
      if k :| 0 <= k < |players| && IsActive(players[k]) && players[k].id == id {
        assert players[k] in Actives(players);
        var i :| 0 <= i < |Actives(players)| && Actives(players)[i] == players[k];
        assert ids[i] == id;
      }
    }
  }

  lemma SomeActive(players: seq<Player>) returns (seat: nat)
    requires Actives(players) != []
    ensures seat < |players| && IsActive(players[seat]) && players[seat] == Actives(players)[0]
  {
    var p := Actives(players)[0];
    assert p in Actives(players);
    seat :| 0 <= seat < |players| && players[seat] == p;
  }

  // ---- a step inside a round

  ghost predicate SameRound(s: State, c: State) {
    && c.config == s.config && c.stock == s.stock && c.status == s.status && c.revision == s.revision
       && c.settlement == s.settlement
    && c.history == s.history && c.roundNumber == s.roundNumber && c.roundStart == s.roundStart
       && c.results == s.results
  }

  ghost predicate Paying(s: State, c: State, specs: seq<Spec>, payer: nat, amount: int) {
    && payer < |s.players| && |c.players| == |s.players| && amount >= 0 && c.pot == s.pot + amount
    && (forall k :: 0 <= k < |s.players| ==>
          c.players[k].contribution == s.players[k].contribution + if k == payer then amount else 0)
    && (forall id :: PaidBy(specs, id) == if id == s.players[payer].id then amount else 0)
    && Payable(specs, s.config.playerIds)
  }

  lemma RosterKept(s: State, t: State)
    requires Roster(s.config, s.players) && t.config == s.config && SeatsKept(s.players, t.players)
    ensures Roster(t.config, t.players) && forall k :: 0 <= k < |t.players| ==>
            CountersOk(t.players[k]) && t.players[k].id == s.players[k].id
  {
    forall k | 0 <= k < |t.players| ensures CountersOk(t.players[k]) && t.players[k].id == s.players[k].id {
      assert SeatKept(s.players[k], t.players[k]);
    }
  }

  lemma LedgerKept(s: State, t: State)
    requires LedgerOk(s) && s.status != Finished && t.status != Finished && t.results == s.results
             && t.roundNumber == s.roundNumber
    ensures LedgerOk(t)
  {
    hide ResultOk;
  }

  // The audit's view of shows and turns does not look at the history.
  lemma ShowCommit(c: State, t: State)
    requires t == c.(revision := t.revision, history := t.history)
    requires ShowOk(c) && SideShowOk(c) && BettingOk(c)
    ensures ShowOk(t) && SideShowOk(t) && BettingOk(t)
  {
    hide Actives, SeatOf;
  }

  lemma InRoundKeeps(s: State, c: State, specs: seq<Spec>, payer: nat, amount: int)
    requires Inv(s) && s.status == InProgress && SameRound(s, c) && SeatsKept(s.players, c.players) && specs != []
    requires Paying(s, c, specs, payer, amount)
    requires StakesOk(c) && BettingOk(c) && ShowOk(c) && SideShowOk(c) && SideShowsOk(c)
    requires ShowKnown(Commit(s, c, specs))
    ensures Inv(Commit(s, c, specs))
  {
    hide ConfigFormed, Sum, FullDeck, Paid, PaidBy, Actives, LastShow, StakesOk, SideShowResultOk, NoDup,
      Roster, CountersOk,
      LedgerOk, HistoryOk, DealtOk, BettingOk, ShowOk, SideShowOk, SideShowsOk, SeatsKept, MoneyOk, ShowKnown;
    var t := Commit(s, c, specs);
    ConfigDistinct(s.config);
    RosterKept(s, t);
    HistoryGrows(s, t, specs);
    MoneyGrows(s, t, specs, payer, amount);
    DealtKept(s, t);
    StakesCommit(c, t);
    LedgerKept(s, t);
    ShowCommit(c, t);
    SideShowsCommit(c, t);
  }

  lemma ConfigDistinct(config: Config)
    requires ConfigFormed(config)
    ensures NoDup(config.playerIds) && 2 <= |config.playerIds| <= 10 && config.dealerId in config.playerIds
            && RulesFormed(config.rules)
  {
  }

  lemma StakesCommit(c: State, t: State)
    requires StakesOk(c) && t.config == c.config && t.currentSeenBet == c.currentSeenBet
             && t.currentBlindBet == c.currentBlindBet
    ensures StakesOk(t)
  {
  }

  lemma SideShowsCommit(c: State, t: State)
    requires SideShowsOk(c) && t.players == c.players && t.sideShows == c.sideShows
    ensures SideShowsOk(t)
  {
    forall i | 0 <= i < |t.sideShows| ensures SideShowResultOk(t, t.sideShows[i]) { assert SideShowResultOk(c, c.sideShows[i]); }
  }
}
