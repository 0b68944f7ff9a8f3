// What a settlement takes up, and what acting on it changes.
module LedgerEffects {
  import opened Prelude
  import opened LedgerPlan
  import opened LedgerBalances
  import opened LedgerStore

  // ---- the order of names

  // a comes before b: it is a proper beginning of b, or smaller at the first place
  // where they differ.
  ghost predicate Alphabetical(a: string, b: string) {
    exists k: nat :: k <= |a| && k < |b| && a[..k] == b[..k] && (k == |a| || a[k] < b[k])
  }

  lemma {:induction false} StringLessMeans(a: string, b: string)
    ensures StringLess(a, b) <==> Alphabetical(a, b)
  {
    if a == [] {
      assert b != [] ==> a[..0] == b[..0];
    } else if b != [] {
      StringLessMeans(a[1..], b[1..]);
      if StringLess(a, b) {
        if a[0] < b[0] {
          assert a[..0] == b[..0];
        } else {
          var k: nat :| k <= |a[1..]| && k < |b[1..]| && a[1..][..k] == b[1..][..k]
                        && (k == |a[1..]| || a[1..][k] < b[1..][k]);
          BeginsWith(a, b, k);
        }
      }
      if k: nat :| k <= |a| && k < |b| && a[..k] == b[..k] && (k == |a| || a[k] < b[k]) {
        if k > 0 {
          assert a[0] == a[..k][0] == b[..k][0] == b[0];
          assert a[1..][..k - 1] == a[..k][1..] && b[1..][..k - 1] == b[..k][1..];
        }
      }
    }
  }

  lemma BeginsWith(a: string, b: string, k: nat)
    requires a != [] && b != [] && a[0] == b[0] && k <= |a[1..]| && k <= |b[1..]| && a[1..][..k] == b[1..][..k]
    ensures a[..k + 1] == b[..k + 1]
  {
    assert a[..k + 1] == [a[0]] + a[1..][..k] && b[..k + 1] == [b[0]] + b[1..][..k];
  }

  // ---- the order of the plan

  lemma OrderedTail(rows: seq<Row>, amount: int)
    requires rows != [] && amount <= rows[0].amount && Ordered(PlayerBefore, rows)
    ensures Ordered(PlayerBefore, Spend(rows, amount))
    ensures forall i :: 0 <= i < |rows| ==> !StringLess(rows[i].player, rows[0].player)
  {
    StringTotal(rows[0].player, rows[0].player);
    var r := Spend(rows, amount);
    var shift := if rows[0].amount == amount then 1 else 0;
    forall i, j | 0 <= i < j < |r| ensures !PlayerBefore(r[j], r[i]) {
      assert !PlayerBefore(rows[j + shift], rows[i + shift]);
    }
    forall i | 0 <= i < |rows| ensures !StringLess(rows[i].player, rows[0].player) {
      if i > 0 { assert !PlayerBefore(rows[i], rows[0]); }
    }
  }

  // Debtors pay in their order, and creditors are paid in theirs: nobody's turn
  // comes before everybody ahead is done.
  ghost predicate InTurn(plan: seq<Transfer>) {
    forall i, j :: 0 <= i < j < |plan| ==>
      !StringLess(plan[j].payer, plan[i].payer) && !StringLess(plan[j].payee, plan[i].payee)
  }

  lemma {:induction false} PlanInTurn(debtors: seq<Row>, creditors: seq<Row>)
    requires Positive(debtors) && Positive(creditors)
    requires Ordered(PlayerBefore, debtors) && Ordered(PlayerBefore, creditors)
    ensures InTurn(Plan(debtors, creditors))
    decreases |debtors| + |creditors|
  {
    hide Ordered, InTurn, Plan, PlayerBefore;
    if debtors == [] || creditors == [] {
      NothingLeft(debtors, creditors);
      NobodysTurn();
    } else {
      var amount := Smaller(debtors[0].amount, creditors[0].amount);
      OrderedTail(debtors, amount);
      OrderedTail(creditors, amount);
      PlanInTurn(Spend(debtors, amount), Spend(creditors, amount));
      FirstTurn(debtors, creditors);
    }
  }

  lemma NobodysTurn()
    ensures InTurn([])
  {
  }

  // The first transfer is between the first debtor and the first creditor, so no
  // later one is between people ahead of them.
  lemma {:induction false} FirstTurn(debtors: seq<Row>, creditors: seq<Row>)
    requires debtors != [] && creditors != [] && Positive(debtors) && Positive(creditors)
    requires forall i :: 0 <= i < |debtors| ==> !StringLess(debtors[i].player, debtors[0].player)
    requires forall i :: 0 <= i < |creditors| ==> !StringLess(creditors[i].player, creditors[0].player)
    requires var amount := Smaller(debtors[0].amount, creditors[0].amount);
             InTurn(Plan(Spend(debtors, amount), Spend(creditors, amount)))
    ensures InTurn(Plan(debtors, creditors))
  {
    hide Spend, StringLess;
    var amount := Smaller(debtors[0].amount, creditors[0].amount);
    var rest := Plan(Spend(debtors, amount), Spend(creditors, amount));
    var plan := Plan(debtors, creditors);
    assert plan == [Transfer(debtors[0].player, creditors[0].player, amount)] + rest;
    PlanShape(debtors, creditors);
    hide Plan;
    forall i, j | 0 <= i < j < |plan|
      ensures !StringLess(plan[j].payer, plan[i].payer) && !StringLess(plan[j].payee, plan[i].payee)
    {
      if i > 0 {
        assert plan[i] == rest[i - 1] && plan[j] == rest[j - 1];
      } else {
        var p :| 0 <= p < |debtors| && Players(debtors)[p] == plan[j].payer;
        var q :| 0 <= q < |creditors| && Players(creditors)[q] == plan[j].payee;
      }
    }
  }

  lemma {:induction false} SidesOrdered(rows: seq<Row>)
    requires Ordered(PlayerBefore, rows)
    ensures Ordered(PlayerBefore, Debtors(rows)) && Ordered(PlayerBefore, Creditors(rows))
  {
    hide Debtors, Creditors, Ordered, StringLess, PlayerBefore;
    if rows == [] {
      NoSides();
    } else {
      var row, rest := rows[0], rows[1..];
      TailOrdered(rows);
      SidesOrdered(rest);
      SidesBegin(rows);
      FirstLeads(rows, Debtors(rest));
      FirstLeads(rows, Creditors(rest));
      if row.amount > 0 {
        LedOrdered(row, Creditors(rest));
      } else if row.amount < 0 {
        LedOrdered(Row(row.player, -row.amount), Debtors(rest));
      }
    }
  }

  lemma NoSides()
    ensures Debtors([]) == [] && Creditors([]) == [] && Ordered(PlayerBefore, [])
  {
  }

  lemma SidesBegin(rows: seq<Row>)
    requires rows != []
    ensures Creditors(rows) ==
            if rows[0].amount > 0 then [rows[0]] + Creditors(rows[1..]) else Creditors(rows[1..])
    ensures Debtors(rows) ==
            if rows[0].amount < 0 then [Row(rows[0].player, -rows[0].amount)] + Debtors(rows[1..])
            else Debtors(rows[1..])
  {
  }

  lemma TailOrdered(rows: seq<Row>)
    requires rows != [] && Ordered(PlayerBefore, rows)
    ensures Ordered(PlayerBefore, rows[1..])
  {
    hide PlayerBefore;
    var rest := rows[1..];
    forall i, j | 0 <= i < j < |rest| ensures !PlayerBefore(rest[j], rest[i]) {
      assert !PlayerBefore(rows[j + 1], rows[i + 1]);
    }
  }

  lemma FirstLeads(rows: seq<Row>, side: seq<Row>)
    requires rows != [] && Ordered(PlayerBefore, rows)
    requires side == Debtors(rows[1..]) || side == Creditors(rows[1..])
    ensures forall i :: 0 <= i < |side| ==> !StringLess(side[i].player, rows[0].player)
  {
    forall i | 0 <= i < |side| ensures !StringLess(side[i].player, rows[0].player) {
      var k := Origin(rows[1..], side, i);
      LaterRow(rows, k + 1);
    }
  }

  lemma Origin(rows: seq<Row>, side: seq<Row>, i: nat) returns (k: nat)
    requires (side == Debtors(rows) || side == Creditors(rows)) && i < |side|
    ensures k < |rows| && rows[k].player == side[i].player
  {
    hide Debtors, Creditors;
    var origin := if side == Creditors(rows) then side[i] else Row(side[i].player, -side[i].amount);
    assert origin in rows;
    k :| 0 <= k < |rows| && rows[k] == origin;
  }

  lemma LaterRow(rows: seq<Row>, k: nat)
    requires 0 < k < |rows| && Ordered(PlayerBefore, rows)
    ensures !StringLess(rows[k].player, rows[0].player)
  {
    hide StringLess;
    assert !PlayerBefore(rows[k], rows[0]);
  }

  lemma LedOrdered(row: Row, rest: seq<Row>)
    requires Ordered(PlayerBefore, rest) && forall i :: 0 <= i < |rest| ==> !StringLess(rest[i].player, row.player)
    ensures Ordered(PlayerBefore, [row] + rest)
  {
    var r := [row] + rest;
    forall i, j | 0 <= i < j < |r| ensures !PlayerBefore(r[j], r[i]) {
      if i > 0 { assert !PlayerBefore(rest[j - 1], rest[i - 1]); }
    }
  }

  // ---- how balances are listed

  // Largest first, and by name where they are equal.
  predicate ListedBefore(a: Row, b: Row) {
    b.amount < a.amount || (b.amount == a.amount && !StringLess(b.player, a.player))
  }

  ghost predicate Listed(rows: seq<Row>) {
    forall i, j :: 0 <= i < j < |rows| ==> ListedBefore(rows[i], rows[j])
  }

  lemma {:induction false} NonzeroListed(rows: seq<Row>)
    requires Listed(rows)
    ensures Listed(NonzeroRows(rows))
    ensures forall x :: x in NonzeroRows(rows) <==> x in rows && x.amount != 0
  {
    hide ListedBefore, Listed, NonzeroRows;
    NonzeroBegins(rows);
    if rows == [] {
      NothingListed();
    } else {
      ListedTail(rows);
      NonzeroListed(rows[1..]);
      assert rows == [rows[0]] + rows[1..];
      ListedCons(rows[0], NonzeroRows(rows[1..]));
    }
  }

  lemma NothingListed()
    ensures Listed([])
  {
  }

  lemma NonzeroBegins(rows: seq<Row>)
    ensures rows == [] ==> NonzeroRows(rows) == []
    ensures rows != [] ==>
              NonzeroRows(rows) ==
              if rows[0].amount != 0 then [rows[0]] + NonzeroRows(rows[1..]) else NonzeroRows(rows[1..])
  {
    hide AmountOf;
  }

  lemma ListedTail(rows: seq<Row>)
    requires rows != [] && Listed(rows)
    ensures Listed(rows[1..]) && forall x :: x in rows[1..] ==> ListedBefore(rows[0], x)
  {
    hide ListedBefore;
    var rest := rows[1..];
    forall i, j | 0 <= i < j < |rest| ensures ListedBefore(rest[i], rest[j]) {
      assert ListedBefore(rows[i + 1], rows[j + 1]);
    }
  }

  lemma ListedCons(row: Row, rest: seq<Row>)
    requires Listed(rest) && forall x :: x in rest ==> ListedBefore(row, x)
    ensures Listed([row] + rest)
  {
    hide ListedBefore;
    var r := [row] + rest;
    forall i, j | 0 <= i < j < |r| ensures ListedBefore(r[i], r[j]) {
      if i > 0 { assert ListedBefore(rest[i - 1], rest[j - 1]); }
    }
  }

  // A settlement lists every balance but the zero ones, largest first.
  lemma BalancesListed(rows: seq<Row>)
    ensures Listed(SortedBalances(rows))
    ensures forall x :: x in SortedBalances(rows) <==> x in rows && x.amount != 0
  {
    ListingsOrdered(rows);
    var sorted := SortBy(LargerBefore, rows);
    forall i, j | 0 <= i < j < |sorted| ensures ListedBefore(sorted[i], sorted[j]) {
      assert !LargerBefore(sorted[j], sorted[i]);
    }
    NonzeroListed(sorted);
    hide SortBy, NonzeroRows, ListedBefore;
  }

  // ---- which games a settlement takes up

  // A game the request is about.
  predicate Asked(g: GameResult, room: string, request: Request) {
    && g.roomId == room && g.tableId == request.tableId
    && match request.scope
       case TableScope => true
       case GameScope(id) => g.gameId == id
  }

  // No settlement of the room lists the game.
  predicate Free(l: Ledger, room: string, gameId: string) {
    forall i :: 0 <= i < |l.batches| && l.batches[i].roomId == room ==> gameId !in l.batches[i].games
  }

  lemma UnclaimedMeans(l: Ledger, room: string, request: Request)
    ensures forall g :: g in Unclaimed(l.games, l.batches, room, request) <==>
                        g in l.games && Asked(g, room, request) && Free(l, room, g.gameId)
  {
    forall g ensures g in Unclaimed(l.games, l.batches, room, request) <==>
      g in l.games && Asked(g, room, request) && Free(l, room, g.gameId) {
      assert InScope(g, room, request) <==> Asked(g, room, request);
      assert ClaimedIn(l.batches, room, g.gameId) <==> !Free(l, room, g.gameId);
    }
  }

  // A settlement that was not there before: what it records.
  ghost predicate NewSettlement(l: Ledger, b: Batch, room: string, user: string, request: Request, batchId: nat) {
    && b.batchId == batchId && b.roomId == room && b.tableId == request.tableId && b.scope == request.scope
    && b.createdBy == user && b.idempotencyKey == request.idempotencyKey && b.status == BatchOpen
    && (forall id :: id in b.games <==>
          exists g :: g in l.games && g.gameId == id && Asked(g, room, request) && Free(l, room, id))
    && (forall i :: 0 <= i < |b.transfers| ==>
          b.transfers[i].status == Open && b.transfers[i].markedPaidAt.None? && b.transfers[i].resolvedAt.None?)
    && InTurn(Transfers(b.transfers))
  }

  // A member who has a balance in the free games of the request is given a
  // settlement of exactly those games, nothing else changes, and who has not is not.
  lemma CreateMeans(claims: Claims, l: Ledger, member: bool, room: string, user: string, request: Request,
    batchId: nat, mint: nat -> nat)
    requires LedgerOk(l) && batchId !in BatchIds(l.batches) && forall i, j :: mint(i) == mint(j) ==> i == j
    ensures var (t, answer) := CreateSettlement(claims, l, member, room, user, request, batchId, mint);
            && (t != l ==>
                  && member && answer.Given? && (user, request.idempotencyKey) !in l.requestIds
                  && t == l.(batches := l.batches + [answer.batch],
                             requestIds := l.requestIds[(user, request.idempotencyKey) := batchId])
                  && NewSettlement(l, answer.batch, room, user, request, batchId)
                  && AmountIn(Unclaimed(l.games, l.batches, room, request), user) != 0)
            && (!member ==> answer == Refused(Forbidden))
            && (member && (user, request.idempotencyKey) !in l.requestIds ==>
                  var games := Unclaimed(l.games, l.batches, room, request);
                  && (games == [] ==> answer == Refused(Invalid))
                  && (games != [] && AmountIn(games, user) == 0 ==> answer == Refused(Forbidden)))
  {
    hide LedgerOk, Unclaimed, Balances, SortBy, SortedBalances, Plan, Debtors, Creditors, AmountOf, NewRows, Existing,
      NewSettlement, Claimed;
    KeyIsKnown(l, room, user, request.idempotencyKey);
    Nothing();
    var games := Unclaimed(l.games, l.batches, room, request);
    var balances := Balances([], games);
    assert AmountOf(balances, user) == AmountOf([], user) + AmountIn(games, user);
    var rows := SortBy(PlayerBefore, balances);
    var plan := Plan(Debtors(rows), Creditors(rows));
    var b := Batch(batchId, room, request.tableId, request.scope, GameIds(games), SortedBalances(balances), BatchOpen,
                   user, request.idempotencyKey, NewRows(plan, mint));
    SettlementIs(l, b, room, user, request, batchId, mint, rows);
  }

  lemma SettlementIs(l: Ledger, b: Batch, room: string, user: string, request: Request, batchId: nat, mint: nat -> nat,
    rows: seq<Row>)
    requires rows == SortBy(PlayerBefore, Balances([], Unclaimed(l.games, l.batches, room, request)))
    requires b == Batch(batchId, room, request.tableId, request.scope,
               GameIds(Unclaimed(l.games, l.batches, room, request)), b.balances, BatchOpen, user,
               request.idempotencyKey, NewRows(Plan(Debtors(rows), Creditors(rows)), mint))
    ensures NewSettlement(l, b, room, user, request, batchId)
  {
    hide Unclaimed, Balances, SortBy, Plan, Debtors, Creditors, Ordered, Asked, Free, InTurn;
    var games := Unclaimed(l.games, l.batches, room, request);
    UnclaimedMeans(l, room, request);
    forall id ensures id in GameIds(games) <==> exists g :: g in games && g.gameId == id {
      if id in GameIds(games) {
        var i :| 0 <= i < |games| && GameIds(games)[i] == id;
        assert games[i] in games;
      }
      if g :| g in games && g.gameId == id {
        var i :| 0 <= i < |games| && games[i] == g;
        assert GameIds(games)[i] == id;
      }
    }
    ListingsOrdered(Balances([], games));
    SidesOrdered(rows);
    PlanInTurn(Debtors(rows), Creditors(rows));
    assert Transfers(b.transfers) == Plan(Debtors(rows), Creditors(rows));
  }

  // ---- acting

  // Whose turn an action is, and when.
  predicate MayAct(row: TransferRow, user: string, action: ActionKind) {
    match action
    case MarkPaid => user == row.transfer.payer
    case Confirm => user == row.transfer.payee
    case OtherAction(_) => true
  }

  predicate Due(row: TransferRow, action: ActionKind) {
    (action == MarkPaid && row.status == Open) || (action == Confirm && row.status == MarkedPaid)
  }

  // The transfer is marked paid, or resolved, at the time of the call.
  ghost predicate Acted(row: TransferRow, after: TransferRow, now: int) {
    && after == row.(status := after.status, markedPaidAt := after.markedPaidAt, resolvedAt := after.resolvedAt)
    && (row.status == Open ==>
          after.status == MarkedPaid && after.markedPaidAt == Some(now) && after.resolvedAt == row.resolvedAt)
    && (row.status == MarkedPaid ==>
          after.status == Resolved && after.resolvedAt == Some(now) && after.markedPaidAt == row.markedPaidAt)
  }

  // A batch is resolved when all its transfers are, and partly when some are.
  lemma StatusMeans(rows: seq<TransferRow>)
    ensures StatusOf(rows) == BatchResolved <==> rows != [] && forall r :: r in rows ==> r.status == Resolved
    ensures StatusOf(rows) == BatchOpen <==> forall r :: r in rows ==> r.status != Resolved
  {
    if rows != [] { assert rows[0] in rows; }
    assert (forall i :: 0 <= i < |rows| ==> rows[i].status == Resolved) <==> forall r :: r in rows ==>
        r.status == Resolved;
    assert (exists i :: 0 <= i < |rows| && rows[i].status == Resolved) <==>
        exists r :: r in rows && r.status == Resolved;
  }

  // The payer marks an open transfer paid and the payee confirms a marked one;
  // anybody else is forbidden to, and out of turn the action is invalid. Only that
  // transfer changes, and the batch's status with it.
  lemma ActMeans(l: Ledger, room: string, b: nat, t: nat, user: string, action: ActionKind, key: string, now: int)
    requires LedgerOk(l) && b < |l.batches| && l.batches[b].roomId == room && t < |l.batches[b].transfers|
    ensures var batch := l.batches[b];
            var row := batch.transfers[t];
            var (next, answer) := Act(l, true, room, batch.batchId, row.transferId, user, action, key, now);
            if (user, action, key) in l.actionIds then next == l && answer == Given(batch)
            else if MayAct(row, user, action) && Due(row, action) then
              && answer.Given? && |answer.batch.transfers| == |batch.transfers|
              && Acted(row, answer.batch.transfers[t], now)
              && answer.batch == batch.(status := StatusOf(answer.batch.transfers),
                                        transfers := batch.transfers[t := answer.batch.transfers[t]])
              && next == l.(batches := l.batches[b := answer.batch], actionIds := l.actionIds + {(user, action, key)})
            else next == l && answer == Refused(if MayAct(row, user, action) then Invalid else Forbidden)
  {
    hide LedgerOk, StatusOf;
    Located(l, b, t);
  }

  // Ids find the batch and the transfer they belong to.
  lemma Located(l: Ledger, b: nat, t: nat)
    requires LedgerOk(l) && b < |l.batches| && t < |l.batches[b].transfers|
    ensures l.batches[b].batchId in BatchIds(l.batches) && IndexOf(BatchIds(l.batches), l.batches[b].batchId) == b
    ensures var rows := l.batches[b].transfers;
            rows[t].transferId in TransferIds(rows) && IndexOf(TransferIds(rows), rows[t].transferId) == t
  {
    BatchOf(l, b);
    hide ResultFormed, Squares, StatusOf, KeyHeld, NoDup;
    IndexIs(BatchIds(l.batches), b);
    IndexIs(TransferIds(l.batches[b].transfers), t);
  }

  // Strangers, and ids the room does not know.
  lemma ActRefused(l: Ledger, member: bool, room: string, batchId: nat, transferId: nat, user: string,
    action: ActionKind, key: string, now: int)
    requires LedgerOk(l)
    requires !member || forall b :: 0 <= b < |l.batches| && l.batches[b].roomId == room && l.batches[b].batchId == batchId ==>
               transferId !in TransferIds(l.batches[b].transfers)
    ensures Act(l, member, room, batchId, transferId, user, action, key, now) ==
            (l, Refused(if member then Missing else Forbidden))
  {
    hide LedgerOk, Moved, StatusOf;
  }
}
