// The in-memory ledger store and the service over it, with the loops that add
// up balances and look up batches.
module LedgerService {
  import opened Prelude
  import opened LedgerPlan
  import opened LedgerBalances
  import opened LedgerStore

  // balances = defaultdict(int); for game in games: for row in amounts: ...
  method AddUp(games: seq<GameResult>) returns (balances: seq<Row>)
    ensures balances == Balances([], games)
  {
    balances := [];
    for i := 0 to |games|
      invariant Balances(balances, games[i..]) == Balances([], games)
    {
      ghost var before := balances;
      var amounts := games[i].amounts;
      for j := 0 to |amounts|
        invariant AddRows(balances, amounts[j..]) == AddRows(before, amounts)
      {
        assert amounts[j..][0] == amounts[j] && amounts[j..][1..] == amounts[j + 1..];
        balances := AddAmount(balances, amounts[j].player, amounts[j].amount);
      }
      assert games[i..][0] == games[i] && games[i..][1..] == games[i + 1..];
    }
  }

  class InMemoryLedgerStore {
    var games: seq<GameResult>
    var batches: seq<Batch>
    var requestIds: map<(string, string), nat>
    var actionIds: set<(string, ActionKind, string)>

    function Contents(): Ledger
      reads this
    {
      Ledger(games, batches, requestIds, actionIds)
    }

    ghost predicate Valid()
      reads this
    {
      LedgerOk(Contents())
    }

    constructor ()
      ensures Valid() && Contents() == LedgerStore.Reached(AsWritten, [])
    {
      games, batches, requestIds, actionIds := [], [], map[], {};
      new;
      Empty();
    }

    method RecordGame(result: GameResult) returns (answer: Answer)
      requires Valid() && ResultFormed(result)
      modifies this`games
      ensures Valid() && (Contents(), answer) == LedgerStore.RecordGame(old(Contents()), result)
    {
      hide LedgerOk, ResultFormed;
      RecordKeeps(Contents(), result);
      if result.gameId in GameIds(games) {
        var i := IndexOf(GameIds(games), result.gameId);
        return if games[i] != result then Refused(Invalid) else Recorded;
      }
      games := games + [result];
      answer := Recorded;
    }

    // {game["game_id"] for batch in batches for game in batch["games"]}: the first
    // game of any batch is an id and has no field to read.
    method ClaimsRaise() returns (raised: bool)
      ensures raised <==> exists i :: 0 <= i < |batches| && batches[i].games != []
    {
      for k := 0 to |batches|
        invariant forall i :: 0 <= i < k ==> batches[i].games == []
      {
        if batches[k].games != [] {
          return true;
        }
      }
      return false;
    }

    // create_settlement of the service and create_batch of the store.
    method CreateSettlement(member: bool, room: string, user: string, request: Request, batchId: nat,
      mint: nat -> nat) returns (answer: Answer)
      requires Valid() && batchId !in BatchIds(batches) && forall i, j :: mint(i) == mint(j) ==> i == j
      modifies this`batches, this`requestIds
      ensures Valid() && (Contents(), answer) == LedgerStore.CreateSettlement(AsWritten, old(Contents()),
              member, room, user, request, batchId, mint)
    {
      hide LedgerOk, Unclaimed, Balances, SortBy, SortedBalances, Plan, Debtors, Creditors, AmountOf, NewRows,
        Existing, Claimed;
      CreateKeeps(AsWritten, Contents(), member, room, user, request, batchId, mint);
      if !member {
        return Refused(Forbidden);
      }
      var existing := Existing(batches, room, user, request.idempotencyKey);
      if existing.Some? {
        return Given(batches[existing.value]);
      }
      var chosen := Unclaimed(games, batches, room, request);
      if chosen == [] {
        return Refused(Invalid);
      }
      var balances := AddUp(chosen);
      if AmountOf(balances, user) == 0 {
        return Refused(Forbidden);
      }
      var transfers := TransferPlan(SortBy(PlayerBefore, balances));
      if transfers == [] {
        return Refused(Invalid);
      }
      var key := (user, request.idempotencyKey);
      if key in requestIds {
        if requestIds[key] !in BatchIds(batches) {
          return Refused(Missing);
        }
        return Given(batches[IndexOf(BatchIds(batches), requestIds[key])]);
      }
      var raised := ClaimsRaise();
      if raised {
        return Raised;
      }
      if exists i :: 0 <= i < |chosen| && Claimed(batches, chosen[i].gameId) {
        return Refused(Invalid);
      }
      var batch := Batch(batchId, room, request.tableId, request.scope, GameIds(chosen),
          SortedBalances(balances), BatchOpen, user,
                         request.idempotencyKey, NewRows(transfers, mint));
      batches := batches + [batch];
      requestIds := requestIds[key := batchId];
      answer := Given(batch);
    }

    method Act(member: bool, room: string, batchId: nat, transferId: nat, user: string, action: ActionKind,
      key: string, now: int)
      returns (answer: Answer)
      requires Valid()
      modifies this`batches, this`actionIds
      ensures Valid() && (Contents(), answer) == LedgerStore.Act(old(Contents()), member, room, batchId,
              transferId, user, action, key, now)
    {
      hide LedgerOk, StatusOf;
      ActKeeps(Contents(), member, room, batchId, transferId, user, action, key, now);
      if !member {
        return Refused(Forbidden);
      }
      if batchId !in BatchIds(batches) {
        return Refused(Missing);
      }
      var b := IndexOf(BatchIds(batches), batchId);
      var batch := batches[b];
      if batch.roomId != room || transferId !in TransferIds(batch.transfers) {
        return Refused(Missing);
      }
      if (user, action, key) in actionIds {
        return Given(batch);
      }
      var t := IndexOf(TransferIds(batch.transfers), transferId);
      var row := batch.transfers[t];
      match action {
        case MarkPaid =>
          if row.transfer.payer != user {
            return Refused(Forbidden);
          }
          if row.status != Open {
            return Refused(Invalid);
          }
          row := row.(status := MarkedPaid, markedPaidAt := Some(now));
        case Confirm =>
          if row.transfer.payee != user {
            return Refused(Forbidden);
          }
          if row.status != MarkedPaid {
            return Refused(Invalid);
          }
          row := row.(status := Resolved, resolvedAt := Some(now));
        case OtherAction(_) =>
          return Refused(Invalid);
      }
      var rows := batch.transfers[t := row];
      batch := batch.(transfers := rows, status := StatusOf(rows));
      batches := batches[b := batch];
      actionIds := actionIds + {(user, action, key)};
      answer := Given(batch);
    }
  }
}
