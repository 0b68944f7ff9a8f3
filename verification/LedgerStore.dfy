// Settlement batches and transfer actions: what every run of the ledger keeps.
module LedgerStore {
  import opened Prelude
  import opened LedgerPlan
  import opened LedgerBalances

  datatype TransferStatus = Open | MarkedPaid | Resolved
  datatype BatchStatus = BatchOpen | PartiallyResolved | BatchResolved

  datatype TransferRow = TransferRow(
    transferId: nat, transfer: Transfer, status: TransferStatus, markedPaidAt: Option<int>, resolvedAt: Option<int>)

  datatype Scope = TableScope | GameScope(gameId: string)
  datatype Request = Request(scope: Scope, tableId: string, idempotencyKey: string)

  datatype Batch = Batch(
    batchId: nat, roomId: string, tableId: string, scope: Scope, games: seq<string>, balances: seq<Row>, status: BatchStatus,
    createdBy: string, idempotencyKey: string, transfers: seq<TransferRow>)

  // Dictionaries in insertion order are sequences with distinct keys.
  datatype Ledger = Ledger(
    games: seq<GameResult>, batches: seq<Batch>, requestIds: map<(string, string), nat>,
    actionIds: set<(string, ActionKind, string)>)

  datatype ActionKind = MarkPaid | Confirm | OtherAction(name: string)
  datatype Refusal = Forbidden | Invalid | Missing
  // Raised: the call ends in an exception nothing handles.
  datatype Answer = Refused(error: Refusal) | Recorded | Given(batch: Batch) | Raised

  // How create_batch reads the games of the batches it has. As written, it asks
  // each for a field, but a batch lists its games by id, and the first id it
  // meets raises. As intended, it takes the ids.
  datatype Claims = AsWritten | AsIntended

  function GameIds(games: seq<GameResult>): (r: seq<string>)
    ensures |r| == |games| && forall i :: 0 <= i < |r| ==> r[i] == games[i].gameId
  {
    seq(|games|, i requires 0 <= i < |games| => games[i].gameId)
  }

  function BatchIds(batches: seq<Batch>): (r: seq<nat>)
    ensures |r| == |batches| && forall i :: 0 <= i < |r| ==> r[i] == batches[i].batchId
  {
    seq(|batches|, i requires 0 <= i < |batches| => batches[i].batchId)
  }

  function TransferIds(rows: seq<TransferRow>): (r: seq<nat>)
    ensures |r| == |rows| && forall i :: 0 <= i < |r| ==> r[i] == rows[i].transferId
  {
    seq(|rows|, i requires 0 <= i < |rows| => rows[i].transferId)
  }

  function Transfers(rows: seq<TransferRow>): (r: seq<Transfer>)
    ensures |r| == |rows| && forall i :: 0 <= i < |r| ==> r[i] == rows[i].transfer
  {
    seq(|rows|, i requires 0 <= i < |rows| => rows[i].transfer)
  }

  // ---- record_game

  function RecordGame(l: Ledger, result: GameResult): (Ledger, Answer) {
    if result.gameId in GameIds(l.games) then
      var i := IndexOf(GameIds(l.games), result.gameId);
      if l.games[i] != result then (l, Refused(Invalid)) else (l, Recorded)
    else (l.(games := l.games + [result]), Recorded)
  }

  // ---- create_settlement

  // The completed games of the scope that no batch of the room has claimed.
  function Unclaimed(games: seq<GameResult>, batches: seq<Batch>, room: string, request: Request): (r: seq<GameResult>)
    ensures forall g :: g in r <==> g in games && InScope(g, room, request) && !ClaimedIn(batches, room, g.gameId)
    ensures NoDup(GameIds(games)) ==> NoDup(GameIds(r))
  {
    if games == [] then []
    else
      var rest := Unclaimed(games[1..], batches, room, request);
      KeepDistinct(games, rest);
      if InScope(games[0], room, request) && !ClaimedIn(batches, room, games[0].gameId) then [games[0]] + rest else rest
  }

  lemma KeepDistinct(games: seq<GameResult>, rest: seq<GameResult>)
    requires games != [] && forall g :: g in rest ==> g in games[1..]
    ensures NoDup(GameIds(games)) ==> NoDup(GameIds(games[1..]))
    ensures NoDup(GameIds(games)) && NoDup(GameIds(rest)) ==> NoDup(GameIds([games[0]] + rest))
    ensures forall g :: g in games <==> g == games[0] || g in games[1..]
  {
    var first, tail := games[0], games[1..];
    assert games == [first] + tail;
    hide NoDup;
    assert GameIds(games) == [first.gameId] + GameIds(tail);
    assert GameIds([first] + rest) == [first.gameId] + GameIds(rest);
    NoDupConcat([first.gameId], GameIds(tail));
    NoDupConcat([first.gameId], GameIds(rest));
    if NoDup(GameIds(games)) {
      forall x | x in Elems(GameIds(rest)) ensures x in Elems(GameIds(tail)) {
        var i :| 0 <= i < |rest| && GameIds(rest)[i] == x;
        assert rest[i] in tail;
        var k :| 0 <= k < |tail| && tail[k] == rest[i];
        assert GameIds(tail)[k] == x;
      }
    }
  }

  predicate InScope(g: GameResult, room: string, request: Request) {
    g.roomId == room && g.tableId == request.tableId && (request.scope.TableScope? || g.gameId == request.scope.gameId)
  }

  predicate ClaimedIn(batches: seq<Batch>, room: string, gameId: string) {
    exists i :: 0 <= i < |batches| && batches[i].roomId == room && gameId in batches[i].games
  }

  predicate Claimed(batches: seq<Batch>, gameId: string) {
    exists i :: 0 <= i < |batches| && gameId in batches[i].games
  }

  // The first batch of the room that this user made under this key.
  function Existing(batches: seq<Batch>, room: string, user: string, key: string): (r: Option<nat>)
    ensures r.Some? ==> r.value < |batches| && batches[r.value].roomId == room && batches[r.value].createdBy == user
                        && batches[r.value].idempotencyKey == key
    ensures r.None? ==>
              forall i :: 0 <= i < |batches| && batches[i].roomId == room && batches[i].createdBy == user ==>
                batches[i].idempotencyKey != key
  {
    if batches == [] then None
    else if batches[|batches| - 1].roomId == room && batches[|batches| - 1].createdBy == user
            && batches[|batches| - 1].idempotencyKey == key
            && Existing(batches[..|batches| - 1], room, user, key).None? then Some(|batches| - 1)
    else Existing(batches[..|batches| - 1], room, user, key)
  }

  function NewRows(plan: seq<Transfer>, mint: nat -> nat): (r: seq<TransferRow>)
    ensures |r| == |plan| && forall i :: 0 <= i < |r| ==> r[i] == TransferRow(mint(i), plan[i], Open, None, None)
  {
    seq(|plan|, i requires 0 <= i < |plan| => TransferRow(mint(i), plan[i], Open, None, None))
  }

  // The store's create_batch.
  function CreateBatch(claims: Claims, l: Ledger, room: string, user: string, request: Request,
    games: seq<GameResult>, balances: seq<Row>,
                       plan: seq<Transfer>, batchId: nat, mint: nat -> nat): (Ledger, Answer)
  {
    var key := (user, request.idempotencyKey);
    if key in l.requestIds then
      if l.requestIds[key] in BatchIds(l.batches) then
          (l, Given(l.batches[IndexOf(BatchIds(l.batches), l.requestIds[key])]))
      else (l, Refused(Missing))
    else if claims == AsWritten && (exists i :: 0 <= i < |l.batches| && l.batches[i].games != []) then (l, Raised)
    else if exists i :: 0 <= i < |games| && Claimed(l.batches, games[i].gameId) then (l, Refused(Invalid))
    else
      var batch := Batch(batchId, room, request.tableId, request.scope, GameIds(games), balances, BatchOpen,
          user, request.idempotencyKey,
                         NewRows(plan, mint));
      (l.(batches := l.batches + [batch], requestIds := l.requestIds[key := batchId]), Given(batch))
  }

  // The service's create_settlement.
  function CreateSettlement(claims: Claims, l: Ledger, member: bool, room: string, user: string,
    request: Request, batchId: nat, mint: nat -> nat): (Ledger, Answer) {
    if !member then (l, Refused(Forbidden))
    else
      var existing := Existing(l.batches, room, user, request.idempotencyKey);
      if existing.Some? then (l, Given(l.batches[existing.value]))
      else
        var games := Unclaimed(l.games, l.batches, room, request);
        if games == [] then (l, Refused(Invalid))
        else
          var balances := Balances([], games);
          if AmountOf(balances, user) == 0 then (l, Refused(Forbidden))
          else
            var rows := SortBy(PlayerBefore, balances);
            var plan := Plan(Debtors(rows), Creditors(rows));
            if plan == [] then (l, Refused(Invalid))
            else CreateBatch(claims, l, room, user, request, games, SortedBalances(balances), plan, batchId, mint)
  }

  // ---- act

  function StatusOf(rows: seq<TransferRow>): BatchStatus {
    if rows != [] && forall i :: 0 <= i < |rows| ==> rows[i].status == Resolved then BatchResolved
    else if exists i :: 0 <= i < |rows| && rows[i].status == Resolved then PartiallyResolved
    else BatchOpen
  }

  // One transfer moved on, or the reason it is not.
  function Moved(row: TransferRow, user: string, action: ActionKind, now: int): Option<TransferRow> {
    match action
    case MarkPaid =>
      if row.transfer.payer != user || row.status != Open then None
          else Some(row.(status := MarkedPaid, markedPaidAt := Some(now)))
    case Confirm =>
      if row.transfer.payee != user || row.status != MarkedPaid then None
          else Some(row.(status := Resolved, resolvedAt := Some(now)))
    case OtherAction(_) => None
  }

  function MoveError(row: TransferRow, user: string, action: ActionKind): Refusal {
    match action
    case MarkPaid => if row.transfer.payer != user then Forbidden else Invalid
    case Confirm => if row.transfer.payee != user then Forbidden else Invalid
    case OtherAction(_) => Invalid
  }

  function Act(l: Ledger, member: bool, room: string, batchId: nat, transferId: nat, user: string,
    action: ActionKind, key: string, now: int)
    : (Ledger, Answer)
  {
    if !member then (l, Refused(Forbidden))
    else if batchId !in BatchIds(l.batches) then (l, Refused(Missing))
    else
      var b := IndexOf(BatchIds(l.batches), batchId);
      var batch := l.batches[b];
      if batch.roomId != room then (l, Refused(Missing))
      else if transferId !in TransferIds(batch.transfers) then (l, Refused(Missing))
      else if (user, action, key) in l.actionIds then (l, Given(batch))
      else
        var t := IndexOf(TransferIds(batch.transfers), transferId);
        match Moved(batch.transfers[t], user, action, now)
        case None => (l, Refused(MoveError(batch.transfers[t], user, action)))
        case Some(row) =>
          var rows := batch.transfers[t := row];
          var after := batch.(transfers := rows, status := StatusOf(rows));
          (l.(batches := l.batches[b := after], actionIds := l.actionIds + {(user, action, key)}), Given(after))
  }

  // ---- what every run keeps

  function Picked(games: seq<GameResult>, ids: seq<string>): (r: seq<GameResult>)
    requires forall i :: 0 <= i < |ids| ==> ids[i] in GameIds(games)
    ensures |r| == |ids| && forall i :: 0 <= i < |r| ==> r[i] == games[IndexOf(GameIds(games), ids[i])]
  {
    seq(|ids|, i requires 0 <= i < |ids| => games[IndexOf(GameIds(games), ids[i])])
  }

  predicate RowOk(row: TransferRow) {
    && row.transfer.amount > 0
    && match row.status
       case Open => row.markedPaidAt.None? && row.resolvedAt.None?
       case MarkedPaid => row.markedPaidAt.Some? && row.resolvedAt.None?
       case Resolved => row.markedPaidAt.Some? && row.resolvedAt.Some?
  }

  // Received minus paid is each player's total over the batch's games.
  ghost predicate Squares(games: seq<GameResult>, batch: Batch)
    requires forall i :: 0 <= i < |batch.games| ==> batch.games[i] in GameIds(games)
  {
    forall p :: ReceivedBy(Transfers(batch.transfers), p) - PaidBy(Transfers(batch.transfers), p)
                == AmountIn(Picked(games, batch.games), p)
  }

  ghost predicate BatchOk(games: seq<GameResult>, batch: Batch) {
    && batch.games != [] && NoDup(batch.games)
    && (forall i :: 0 <= i < |batch.games| ==> batch.games[i] in GameIds(games))
    && (forall i :: 0 <= i < |batch.games| ==>
          InScope(Picked(games, batch.games)[i], batch.roomId,
              Request(batch.scope, batch.tableId, batch.idempotencyKey)))
    && Squares(games, batch)
    && NoDup(TransferIds(batch.transfers)) && batch.transfers != []
    && (forall i :: 0 <= i < |batch.transfers| ==> RowOk(batch.transfers[i]))
    && (forall i, j :: 0 <= i < |batch.transfers| && 0 <= j < |batch.transfers| ==>
          batch.transfers[i].transfer.payer != batch.transfers[j].transfer.payee)
    && batch.status == StatusOf(batch.transfers)
  }

  predicate Apart(batches: seq<Batch>, i: nat, j: nat)
    requires i < |batches| && j < |batches|
  {
    Elems(batches[i].games) !! Elems(batches[j].games)
  }

  // A request key leads to the batch made under it.
  ghost predicate KeyHeld(l: Ledger, k: (string, string))
    requires k in l.requestIds
  {
    exists i :: 0 <= i < |l.batches| && l.batches[i].batchId == l.requestIds[k]
                && l.batches[i].createdBy == k.0 && l.batches[i].idempotencyKey == k.1
  }

  ghost predicate LedgerOk(l: Ledger) {
    && NoDup(GameIds(l.games)) && (forall i :: 0 <= i < |l.games| ==> ResultFormed(l.games[i]))
    && NoDup(BatchIds(l.batches))
    && (forall i :: 0 <= i < |l.batches| ==>
          (l.batches[i].createdBy, l.batches[i].idempotencyKey) in l.requestIds
          && l.requestIds[(l.batches[i].createdBy, l.batches[i].idempotencyKey)] == l.batches[i].batchId)
    && (forall k :: k in l.requestIds ==> KeyHeld(l, k))
    && (forall i :: 0 <= i < |l.batches| ==> BatchOk(l.games, l.batches[i]))
    && forall i, j :: 0 <= i < j < |l.batches| ==> Apart(l.batches, i, j)
  }

  // ---- recording

  lemma {:induction false} IndexOfPrefix<T>(s: seq<T>, t: seq<T>, x: T)
    requires x in s
    ensures x in s + t && IndexOf(s + t, x) == IndexOf(s, x)
  {
    assert (s + t)[0] == s[0];
    if s[0] != x {
      assert s == [s[0]] + s[1..];
      assert (s + t)[1..] == s[1..] + t;
      IndexOfPrefix(s[1..], t, x);
    }
  }

  // Recorded games only grow, so the games of a batch stay what they were.
  lemma PickedStays(games: seq<GameResult>, more: seq<GameResult>, ids: seq<string>)
    requires forall i :: 0 <= i < |ids| ==> ids[i] in GameIds(games)
    ensures forall i :: 0 <= i < |ids| ==> ids[i] in GameIds(games + more)
    ensures Picked(games + more, ids) == Picked(games, ids)
  {
    assert GameIds(games + more) == GameIds(games) + GameIds(more);
    forall i | 0 <= i < |ids| ensures ids[i] in GameIds(games + more)
        && IndexOf(GameIds(games + more), ids[i]) == IndexOf(GameIds(games), ids[i]) {
      IndexOfPrefix(GameIds(games), GameIds(more), ids[i]);
    }
  }

  lemma BatchStays(games: seq<GameResult>, more: seq<GameResult>, batch: Batch)
    requires BatchOk(games, batch)
    ensures BatchOk(games + more, batch)
  {
    hide StatusOf, RowOk, InScope, NoDup;
    PickedStays(games, more, batch.games);
  }

  lemma RecordKeeps(l: Ledger, result: GameResult)
    requires LedgerOk(l) && ResultFormed(result)
    ensures LedgerOk(RecordGame(l, result).0)
    ensures RecordGame(l, result).1 == Recorded ==> result in RecordGame(l, result).0.games
    ensures RecordGame(l, result).1 == Recorded
            <==> forall i :: 0 <= i < |l.games| && l.games[i].gameId == result.gameId ==> l.games[i] == result
  {
    hide BatchOk, ResultFormed;
    if result.gameId in GameIds(l.games) {
      var k := IndexOf(GameIds(l.games), result.gameId);
      forall i | 0 <= i < |l.games| && l.games[i].gameId == result.gameId ensures i
          == k { IndexIs(GameIds(l.games), i); }
    } else {
      forall i | 0 <= i < |l.games| ensures l.games[i].gameId
          != result.gameId { assert GameIds(l.games)[i] == l.games[i].gameId; }
      var t := RecordGame(l, result).0;
      assert GameIds(t.games) == GameIds(l.games) + [result.gameId];
      forall i | 0 <= i < |t.batches| ensures BatchOk(t.games, t.batches[i]) { BatchStays(l.games, [result], l.batches[i]); }
      forall k | k in t.requestIds ensures KeyHeld(t, k) { assert KeyHeld(l, k); }
      assert forall i, j :: 0 <= i < j < |t.batches| ==> Apart(l.batches, i, j);
    }
  }

  // ---- creating

  // The games chosen for a batch are the ones its ids name.
  lemma {:induction false} PickedChosen(games: seq<GameResult>, chosen: seq<GameResult>)
    requires NoDup(GameIds(games)) && forall g :: g in chosen ==> g in games
    ensures forall i :: 0 <= i < |chosen| ==> chosen[i].gameId in GameIds(games)
    ensures Picked(games, GameIds(chosen)) == chosen
  {
    forall i | 0 <= i < |chosen|
      ensures chosen[i].gameId in GameIds(games) && games[IndexOf(GameIds(games), chosen[i].gameId)] == chosen[i]
    {
      assert chosen[i] in games;
      var k :| 0 <= k < |games| && games[k] == chosen[i];
      assert GameIds(games)[k] == chosen[i].gameId;
      IndexIs(GameIds(games), k);
    }
  }

  // A batch that holds a recorded game is a batch of that game's room.
  lemma BatchInRoom(games: seq<GameResult>, batch: Batch, g: GameResult)
    requires NoDup(GameIds(games)) && BatchOk(games, batch) && g in games && g.gameId in batch.games
    ensures batch.roomId == g.roomId
  {
    hide Squares, StatusOf, RowOk, NoDup;
    var k :| 0 <= k < |batch.games| && batch.games[k] == g.gameId;
    var j :| 0 <= j < |games| && games[j] == g;
    assert GameIds(games)[j] == g.gameId;
    IndexIs(GameIds(games), j);
    assert Picked(games, batch.games)[k] == g;
  }

  // In a sound ledger a game is claimed only by batches of its own room.
  lemma ClaimsStayInRoom(l: Ledger, g: GameResult)
    requires LedgerOk(l) && g in l.games
    ensures Claimed(l.batches, g.gameId) <==> ClaimedIn(l.batches, g.roomId, g.gameId)
  {
    hide BatchOk, ResultFormed, NoDup;
    if Claimed(l.batches, g.gameId) {
      var i :| 0 <= i < |l.batches| && g.gameId in l.batches[i].games;
      BatchInRoom(l.games, l.batches[i], g);
    }
  }

  lemma NewRowsOk(plan: seq<Transfer>, mint: nat -> nat)
    requires plan != [] && (forall i :: 0 <= i < |plan| ==> plan[i].amount > 0) && forall i, j ::
             mint(i) == mint(j) ==> i == j
    ensures var rows := NewRows(plan, mint);
            && Transfers(rows) == plan && NoDup(TransferIds(rows)) && StatusOf(rows) == BatchOpen
            && forall i :: 0 <= i < |rows| ==> RowOk(rows[i])
  {
    assert NewRows(plan, mint)[0].status == Open;
  }

  // What a fresh settlement writes: the plan for every unclaimed game of the
  // scope, and nothing else.
  lemma NewBatchOk(l: Ledger, room: string, user: string, request: Request, batchId: nat, mint: nat -> nat)
    requires LedgerOk(l) && forall i, j :: mint(i) == mint(j) ==> i == j
    requires Unclaimed(l.games, l.batches, room, request) != []
    ensures var games := Unclaimed(l.games, l.batches, room, request); var balances := Balances([], games);
            var rows := SortBy(PlayerBefore, balances); var plan := Plan(Debtors(rows), Creditors(rows));
            && (AmountOf(balances, user) != 0 ==> plan != [])
            && (plan != [] ==>
                  BatchOk(l.games, Batch(batchId, room, request.tableId, request.scope, GameIds(games),
                      SortedBalances(balances), BatchOpen,
                                         user, request.idempotencyKey, NewRows(plan, mint))))
  {
    hide SortBy, Balances, Plan, Debtors, Creditors, SortedBalances, InScope, AmountIn, AmountOf, Total,
      NewRows, PaidBy, ReceivedBy,
      Nonzero, LedgerOk, BatchOk, NoDup, Unclaimed;
    var games := Unclaimed(l.games, l.batches, room, request);
    var balances := Balances([], games);
    var rows := SortBy(PlayerBefore, balances);
    var plan := Plan(Debtors(rows), Creditors(rows));
    FormedAll(l, games);
    Nothing();
    PlanSettlesBalances(rows);
    if AmountOf(balances, user) != 0 { SomeNonzero(rows, user); }
    if plan != [] {
      DistinctGames(l);
      WrittenOk(l, room, user, request, batchId, mint, games, SortedBalances(balances), plan);
    }
  }

  lemma DistinctGames(l: Ledger)
    requires LedgerOk(l)
    ensures NoDup(GameIds(l.games))
  {
  }

  // A plan that squares the chosen games makes a sound batch of them.
  lemma WrittenOk(l: Ledger, room: string, user: string, request: Request, batchId: nat, mint: nat -> nat,
                  games: seq<GameResult>, balances: seq<Row>, plan: seq<Transfer>)
    requires NoDup(GameIds(l.games)) && games == Unclaimed(l.games, l.batches, room, request) && games != []
             && plan != []
    requires forall i, j :: mint(i) == mint(j) ==> i == j
    requires forall p :: ReceivedBy(plan, p) - PaidBy(plan, p) == AmountIn(games, p)
    requires forall i :: 0 <= i < |plan| ==> plan[i].amount > 0
    requires forall i, j :: 0 <= i < |plan| && 0 <= j < |plan| ==> plan[i].payer != plan[j].payee
    ensures BatchOk(l.games, Batch(batchId, room, request.tableId, request.scope, GameIds(games), balances, BatchOpen,
                                   user, request.idempotencyKey, NewRows(plan, mint)))
  {
    hide StatusOf, RowOk, InScope, AmountIn, NewRows, PaidBy, ReceivedBy, NoDup, Unclaimed;
    PickedChosen(l.games, games);
    NewRowsOk(plan, mint);
    forall i | 0 <= i < |games| ensures InScope(games[i], room,
        Request(request.scope, request.tableId, request.idempotencyKey)) {
      assert games[i] in games;
      ScopeOnly(games[i], room, request);
    }
    var batch := Batch(batchId, room, request.tableId, request.scope, GameIds(games), balances, BatchOpen,
                       user, request.idempotencyKey, NewRows(plan, mint));
    assert Squares(l.games, batch);
    forall i, j | 0 <= i < |batch.transfers| && 0 <= j < |batch.transfers|
      ensures batch.transfers[i].transfer.payer != batch.transfers[j].transfer.payee
    {
      assert Transfers(batch.transfers)[i] == plan[i] && Transfers(batch.transfers)[j] == plan[j];
    }
  }

  lemma ScopeOnly(g: GameResult, room: string, request: Request)
    requires InScope(g, room, request)
    ensures InScope(g, room, Request(request.scope, request.tableId, request.idempotencyKey))
  {
  }

  lemma FormedAll(l: Ledger, games: seq<GameResult>)
    requires LedgerOk(l) && forall g :: g in games ==> g in l.games
    ensures forall i :: 0 <= i < |games| ==> ResultFormed(games[i])
  {
    hide ResultFormed, BatchOk;
    forall i | 0 <= i < |games| ensures ResultFormed(games[i]) {
      assert games[i] in games;
    }
  }

  lemma Nothing()
    ensures Players([]) == [] && NoDup<string>([]) && Total([]) == 0 && forall p :: AmountOf([], p) == 0
  {
  }

  lemma {:induction false} SomeNonzero(rows: seq<Row>, player: string)
    requires AmountOf(rows, player) != 0
    ensures Nonzero(rows) > 0
  {
    if rows[0].amount == 0 { SomeNonzero(rows[1..], player); }
  }

  // A creation keeps the ledger sound: the games it takes were free everywhere,
  // so no game is ever in two batches, and its transfers square its balances.
  lemma CreateKeeps(claims: Claims, l: Ledger, member: bool, room: string, user: string, request: Request,
    batchId: nat, mint: nat -> nat)
    requires LedgerOk(l) && batchId !in BatchIds(l.batches) && forall i, j :: mint(i) == mint(j) ==> i == j
    ensures LedgerOk(CreateSettlement(claims, l, member, room, user, request, batchId, mint).0)
    ensures CreateSettlement(claims, l, member, room, user, request, batchId, mint).1 != Refused(Missing)
  {
    hide LedgerOk, Unclaimed, Balances, SortBy, SortedBalances, Plan, Debtors, Creditors, AmountOf, NewRows;
    var games := Unclaimed(l.games, l.batches, room, request);
    if member && Existing(l.batches, room, user, request.idempotencyKey).None? && games != [] {
      NewBatchOk(l, room, user, request, batchId, mint);
      var balances := Balances([], games);
      var rows := SortBy(PlayerBefore, balances);
      var plan := Plan(Debtors(rows), Creditors(rows));
      KnownKeys(l);
      if AmountOf(balances, user) != 0 && plan != [] && (user, request.idempotencyKey) !in l.requestIds {
        FreeGames(l, room, request);
        AddBatch(l, Batch(batchId, room, request.tableId, request.scope, GameIds(games),
            SortedBalances(balances), BatchOpen,
                          user, request.idempotencyKey, NewRows(plan, mint)));
      }
    }
  }

  lemma KnownKeys(l: Ledger)
    requires LedgerOk(l)
    ensures forall k :: k in l.requestIds ==> l.requestIds[k] in BatchIds(l.batches)
  {
    hide BatchOk, ResultFormed;
    forall k | k in l.requestIds ensures l.requestIds[k] in BatchIds(l.batches) {
      assert KeyHeld(l, k);
      var i :| 0 <= i < |l.batches| && l.batches[i].batchId == l.requestIds[k];
      assert BatchIds(l.batches)[i] == l.requestIds[k];
    }
  }

  lemma FreeGames(l: Ledger, room: string, request: Request)
    requires LedgerOk(l)
    ensures var games := Unclaimed(l.games, l.batches, room, request);
            forall i :: 0 <= i < |games| ==> !Claimed(l.batches, games[i].gameId)
  {
    hide LedgerOk, Claimed, ClaimedIn;
    var games := Unclaimed(l.games, l.batches, room, request);
    forall i | 0 <= i < |games| ensures !Claimed(l.batches, games[i].gameId) {
      assert games[i] in games;
      ClaimsStayInRoom(l, games[i]);
    }
  }

  lemma AddBatch(l: Ledger, batch: Batch)
    requires LedgerOk(l) && batch.batchId !in BatchIds(l.batches) && BatchOk(l.games, batch)
    requires (batch.createdBy, batch.idempotencyKey) !in l.requestIds
    requires forall i :: 0 <= i < |batch.games| ==> !Claimed(l.batches, batch.games[i])
    ensures LedgerOk(l.(batches := l.batches + [batch],
            requestIds := l.requestIds[(batch.createdBy, batch.idempotencyKey) := batch.batchId]))
  {
    hide BatchOk, ResultFormed;
    var t := l.(batches := l.batches + [batch],
        requestIds := l.requestIds[(batch.createdBy, batch.idempotencyKey) := batch.batchId]);
    assert BatchIds(t.batches) == BatchIds(l.batches) + [batch.batchId];
    forall k | k in t.requestIds ensures KeyHeld(t, k) {
      if k == (batch.createdBy, batch.idempotencyKey) {
        assert t.batches[|l.batches|] == batch;
      } else {
        KeyStays(l, t, k);
      }
    }
    forall i, j | 0 <= i < j < |t.batches| ensures Apart(t.batches, i, j) {
      if j < |l.batches| {
        assert Apart(l.batches, i, j);
      } else {
        forall x | x in Elems(t.batches[i].games) ensures x !in Elems(batch.games) {
          assert Claimed(l.batches, x);
        }
      }
    }
  }

  lemma KeyStays(l: Ledger, t: Ledger, k: (string, string))
    requires k in l.requestIds && KeyHeld(l, k) && k in t.requestIds && t.requestIds[k] == l.requestIds[k]
    requires |l.batches| <= |t.batches|
    requires forall i :: 0 <= i < |l.batches| ==>
               t.batches[i].batchId == l.batches[i].batchId && t.batches[i].createdBy == l.batches[i].createdBy
               && t.batches[i].idempotencyKey == l.batches[i].idempotencyKey
    ensures KeyHeld(t, k)
  {
    var i :| 0 <= i < |l.batches| && l.batches[i].batchId == l.requestIds[k]
             && l.batches[i].createdBy == k.0 && l.batches[i].idempotencyKey == k.1;
    assert t.batches[i].batchId == t.requestIds[k];
  }

  // ---- acting

  // A batch after something happened to its transfers.
  ghost predicate BatchMoves(b: Batch, c: Batch) {
    && c == b.(status := c.status, transfers := c.transfers) && |c.transfers| == |b.transfers|
    && forall i :: 0 <= i < |b.transfers| ==>
         c.transfers[i].transferId == b.transfers[i].transferId && c.transfers[i].transfer == b.transfers[i].transfer
         && StatusRank(b.transfers[i].status) <= StatusRank(c.transfers[i].status)
  }

  function StatusRank(s: TransferStatus): nat {
    match s
    case Open => 0
    case MarkedPaid => 1
    case Resolved => 2
  }

  lemma MovedBatchOk(games: seq<GameResult>, batch: Batch, t: nat, user: string, action: ActionKind, now: int)
    requires BatchOk(games, batch) && t < |batch.transfers| && Moved(batch.transfers[t], user, action, now).Some?
    ensures var row := Moved(batch.transfers[t], user, action, now).value; var rows := batch.transfers[t := row];
            && row.transfer == batch.transfers[t].transfer && row.transferId == batch.transfers[t].transferId
            && StatusRank(row.status) == StatusRank(batch.transfers[t].status) + 1
            && BatchOk(games, batch.(transfers := rows, status := StatusOf(rows)))
            && BatchMoves(batch, batch.(transfers := rows, status := StatusOf(rows)))
  {
    hide InScope, StatusOf, NoDup, ReceivedBy, PaidBy;
    var row := Moved(batch.transfers[t], user, action, now).value;
    var rows := batch.transfers[t := row];
    var after := batch.(transfers := rows, status := StatusOf(rows));
    assert Transfers(rows) == Transfers(batch.transfers) && TransferIds(rows) == TransferIds(batch.transfers);
    assert RowOk(batch.transfers[t]) && RowOk(row);
    forall i | 0 <= i < |rows| ensures RowOk(rows[i]) { assert RowOk(batch.transfers[i]); }
  }

  lemma ReplaceBatch(l: Ledger, b: nat, after: Batch)
    requires LedgerOk(l) && b < |l.batches| && BatchOk(l.games, after)
    requires after == l.batches[b].(status := after.status, transfers := after.transfers)
    ensures LedgerOk(l.(batches := l.batches[b := after]))
  {
    hide BatchOk, ResultFormed, NoDup, KeyHeld;
    var t := l.(batches := l.batches[b := after]);
    assert BatchIds(t.batches) == BatchIds(l.batches);
    forall i | 0 <= i < |t.batches| ensures BatchOk(t.games, t.batches[i]) {}
    forall i, j | 0 <= i < j < |t.batches| ensures Apart(t.batches, i, j) { assert Apart(l.batches, i, j); }
    forall k | k in t.requestIds ensures KeyHeld(t, k) { KeyStays(l, t, k); }
  }

  lemma SameButActions(l: Ledger, t: Ledger)
    requires LedgerOk(l) && t == l.(actionIds := t.actionIds)
    ensures LedgerOk(t)
  {
    hide BatchOk, ResultFormed, NoDup;
    forall k | k in t.requestIds ensures KeyHeld(t, k) { assert KeyHeld(l, k); }
    assert forall i, j :: 0 <= i < j < |t.batches| ==> Apart(l.batches, i, j);
  }

  lemma BatchOf(l: Ledger, b: nat)
    requires LedgerOk(l) && b < |l.batches|
    ensures BatchOk(l.games, l.batches[b])
  {
    hide BatchOk;
  }

  lemma ActKeeps(l: Ledger, member: bool, room: string, batchId: nat, transferId: nat, user: string,
    action: ActionKind, key: string, now: int)
    requires LedgerOk(l)
    ensures LedgerOk(Act(l, member, room, batchId, transferId, user, action, key, now).0)
  {
    hide BatchOk, Moved, StatusOf, LedgerOk, BatchMoves;
    var t := Act(l, member, room, batchId, transferId, user, action, key, now).0;
    if t != l {
      var b := IndexOf(BatchIds(l.batches), batchId);
      var batch := l.batches[b];
      BatchOf(l, b);
      MovedBatchOk(l.games, batch, IndexOf(TransferIds(batch.transfers), transferId), user, action, now);
      var after := t.batches[b];
      ReplaceBatch(l, b, after);
      SameButActions(l.(batches := l.batches[b := after]), t);
    }
  }

  // Exactly when a call that is answered with a batch has moved its transfer:
  // the payer marks an open one, the payee confirms a marked one, and the
  // request key has not been used for that action before, on any transfer.
  lemma ActMoves(l: Ledger, member: bool, room: string, batchId: nat, transferId: nat, user: string,
    action: ActionKind, key: string, now: int)
    requires LedgerOk(l)
    ensures var (t, answer) := Act(l, member, room, batchId, transferId, user, action, key, now);
            answer.Given? ==> (t != l <==> (user, action, key) !in l.actionIds)
    ensures var (t, answer) := Act(l, member, room, batchId, transferId, user, action, key, now);
            t != l ==>
              answer.Given? && batchId in BatchIds(l.batches)
              && var b := IndexOf(BatchIds(l.batches), batchId);
                 && t.games == l.games && t.batches == l.batches[b
                    := answer.batch] && BatchMoves(l.batches[b], answer.batch)
                 && l.batches[b].roomId == room && transferId in TransferIds(l.batches[b].transfers)
                 && var k := IndexOf(TransferIds(l.batches[b].transfers), transferId);
                    var row := l.batches[b].transfers[k];
                    && StatusRank(answer.batch.transfers[k].status) == StatusRank(row.status) + 1
                    && user == (if row.status == Open then row.transfer.payer else row.transfer.payee)
                    && forall i :: 0 <= i < |l.batches[b].transfers| && i != k ==>
                       answer.batch.transfers[i] == l.batches[b].transfers[i]
  {
    hide LedgerOk, StatusOf, BatchOk;
    var (t, answer) := Act(l, member, room, batchId, transferId, user, action, key, now);
    if t != l {
      var b := IndexOf(BatchIds(l.batches), batchId);
      BatchOf(l, b);
      MovedBatchOk(l.games, l.batches[b], IndexOf(TransferIds(l.batches[b].transfers), transferId), user, action, now);
    }
  }

  // ---- the quirks of request keys

  // A key already used in another room gives back that room's batch: a creation
  // is answered with a batch of its own room exactly when its key is new or was
  // used there.
  lemma GivenInRoom(claims: Claims, l: Ledger, room: string, user: string, request: Request, batchId: nat,
    mint: nat -> nat)
    requires LedgerOk(l) && batchId !in BatchIds(l.batches)
    requires CreateSettlement(claims, l, true, room, user, request, batchId, mint).1.Given?
    ensures var batch := CreateSettlement(claims, l, true, room, user, request, batchId, mint).1.batch;
            && batch.createdBy == user && batch.idempotencyKey == request.idempotencyKey
            && (batch.roomId == room <==>
                  (user, request.idempotencyKey) !in l.requestIds
                      || Existing(l.batches, room, user, request.idempotencyKey).Some?)
  {
    hide LedgerOk, Unclaimed, Balances, SortBy, SortedBalances, Plan, Debtors, Creditors, AmountOf, NewRows,
      Existing, Claimed;
    var key := (user, request.idempotencyKey);
    if key in l.requestIds {
      KnownKeys(l);
      var b := IndexOf(BatchIds(l.batches), l.requestIds[key]);
      KeyOfBatch(l, key, b);
    }
  }

  lemma KeyOfBatch(l: Ledger, key: (string, string), b: nat)
    requires LedgerOk(l) && key in l.requestIds && b < |l.batches| && l.batches[b].batchId == l.requestIds[key]
    ensures l.batches[b].createdBy == key.0 && l.batches[b].idempotencyKey == key.1
  {
    hide BatchOk, ResultFormed;
    assert KeyHeld(l, key);
    var i :| 0 <= i < |l.batches| && l.batches[i].batchId == l.requestIds[key]
             && l.batches[i].createdBy == key.0 && l.batches[i].idempotencyKey == key.1;
    IndexIs(BatchIds(l.batches), i);
    IndexIs(BatchIds(l.batches), b);
  }

  // ---- the second settlement

  // As written, a creation raises exactly when everything is in order for it and
  // a settlement, any settlement, exists already.
  lemma RaisedExactly(l: Ledger, member: bool, room: string, user: string, request: Request, batchId: nat,
    mint: nat -> nat)
    requires LedgerOk(l) && forall i, j :: mint(i) == mint(j) ==> i == j
    ensures var (t, answer) := CreateSettlement(AsWritten, l, member, room, user, request, batchId, mint);
            var games := Unclaimed(l.games, l.batches, room, request);
            && (answer == Raised <==>
                  && member && (user, request.idempotencyKey) !in l.requestIds && games != []
                  && AmountOf(Balances([], games), user) != 0 && l.batches != [])
            && (answer == Raised ==> t == l)
  {
    hide LedgerOk, Unclaimed, Balances, SortBy, SortedBalances, Plan, Debtors, Creditors, AmountOf, NewRows,
      Existing, Claimed;
    KeyIsKnown(l, room, user, request.idempotencyKey);
    SomeGames(l);
    if Unclaimed(l.games, l.batches, room, request) != [] { NewBatchOk(l, room, user, request, batchId, mint); }
  }

  // A member with a new key, unsettled games and a balance is given a settlement
  // exactly when the store holds none yet; as intended, always.
  lemma GivenExactly(l: Ledger, room: string, user: string, request: Request, batchId: nat, mint: nat -> nat)
    requires LedgerOk(l) && batchId !in BatchIds(l.batches) && forall i, j :: mint(i) == mint(j) ==> i == j
    requires (user, request.idempotencyKey) !in l.requestIds
    requires var games := Unclaimed(l.games, l.batches, room, request); games != [] && AmountOf(Balances([], games), user) != 0
    ensures CreateSettlement(AsWritten, l, true, room, user, request, batchId, mint).1.Given? <==> l.batches == []
    ensures CreateSettlement(AsIntended, l, true, room, user, request, batchId, mint).1.Given?
  {
    hide LedgerOk, Unclaimed, Balances, SortBy, SortedBalances, Plan, Debtors, Creditors, AmountOf, NewRows,
      Existing, Claimed;
    KeyIsKnown(l, room, user, request.idempotencyKey);
    SomeGames(l);
    NewBatchOk(l, room, user, request, batchId, mint);
    FreeGames(l, room, request);
  }

  lemma KeyIsKnown(l: Ledger, room: string, user: string, key: string)
    requires LedgerOk(l)
    ensures Existing(l.batches, room, user, key).Some? ==> (user, key) in l.requestIds
  {
    hide BatchOk, ResultFormed, NoDup, Existing;
  }

  lemma SomeGames(l: Ledger)
    requires LedgerOk(l)
    ensures l.batches != [] <==> exists i :: 0 <= i < |l.batches| && l.batches[i].games != []
  {
    if l.batches != [] {
      BatchOf(l, 0);
      assert l.batches[0].games != [];
    }
  }

  // ---- runs

  datatype Op =
    | OpRecord(result: GameResult)
    | OpCreate(member: bool, room: string, user: string, request: Request, batchId: nat, mint: nat -> nat)
    | OpAct(member: bool, room: string, batchId: nat, transferId: nat, user: string, action: ActionKind,
        key: string, now: int)

  function Step(claims: Claims, l: Ledger, op: Op): (Ledger, Answer) {
    match op
    case OpRecord(result) => RecordGame(l, result)
    case OpCreate(member, room, user, request, batchId, mint) => CreateSettlement(claims, l, member, room,
        user, request, batchId, mint)
    case OpAct(member, room, batchId, transferId, user, action, key, now) => Act(l, member, room, batchId,
        transferId, user, action, key, now)
  }

  // Results have passed their model's checks and identifiers are new.
  ghost predicate Sound(l: Ledger, op: Op) {
    match op
    case OpRecord(result) => ResultFormed(result)
    case OpCreate(_, _, _, _, batchId, mint) => batchId !in BatchIds(l.batches)
        && forall i, j :: mint(i) == mint(j) ==> i == j
    case OpAct(_, _, _, _, _, _, _, _) => true
  }

  function Reached(claims: Claims, ops: seq<Op>): Ledger {
    if ops == [] then Ledger([], [], map[], {}) else Step(claims, Reached(claims, ops[..|ops| - 1]), ops[|ops| - 1]).0
  }

  ghost predicate SoundRun(claims: Claims, ops: seq<Op>) {
    forall i :: 0 <= i < |ops| ==> Sound(Reached(claims, ops[..i]), ops[i])
  }

  // Nothing recorded is lost, and every batch only moves forward.
  ghost predicate LedgerGrows(l: Ledger, t: Ledger) {
    && l.games <= t.games && |l.batches| <= |t.batches|
    && forall i :: 0 <= i < |l.batches| ==> BatchMoves(l.batches[i], t.batches[i])
  }

  lemma BatchesStay(l: Ledger, t: Ledger)
    requires l.games <= t.games && l.batches <= t.batches
    ensures LedgerGrows(l, t)
  {
    forall i | 0 <= i < |l.batches| ensures BatchMoves(l.batches[i], t.batches[i]) { assert t.batches[i]
        == l.batches[i]; }
  }

  lemma StepKeeps(claims: Claims, l: Ledger, op: Op)
    requires LedgerOk(l) && Sound(l, op)
    ensures LedgerOk(Step(claims, l, op).0) && LedgerGrows(l, Step(claims, l, op).0)
  {
    hide LedgerOk, LedgerGrows, BatchMoves, Unclaimed, Balances, SortBy, SortedBalances, Plan, Debtors,
      Creditors, AmountOf, NewRows, Existing, Moved,
      StatusOf;
    match op
    case OpRecord(result) =>
      RecordKeeps(l, result);
      BatchesStay(l, Step(claims, l, op).0);
    case OpCreate(member, room, user, request, batchId, mint) =>
      CreateKeeps(claims, l, member, room, user, request, batchId, mint);
      BatchesStay(l, Step(claims, l, op).0);
    case OpAct(member, room, batchId, transferId, user, action, key, now) =>
      ActKeeps(l, member, room, batchId, transferId, user, action, key, now);
      ActGrows(claims, l, op);
  }

  lemma ActGrows(claims: Claims, l: Ledger, op: Op)
    requires LedgerOk(l) && op.OpAct?
    ensures LedgerGrows(l, Step(claims, l, op).0)
  {
    hide LedgerOk, Act, BatchMoves;
    ActMoves(l, op.member, op.room, op.batchId, op.transferId, op.user, op.action, op.key, op.now);
    var t := Step(claims, l, op).0;
    forall i | 0 <= i < |l.batches| ensures BatchMoves(l.batches[i], l.batches[i]) { SelfMoves(l.batches[i]); }
  }

  lemma SelfMoves(b: Batch)
    ensures BatchMoves(b, b)
  {
  }

  lemma MovesThrough(a: Batch, b: Batch, c: Batch)
    requires BatchMoves(a, b) && BatchMoves(b, c)
    ensures BatchMoves(a, c)
  {
  }

  lemma GrowsThrough(a: Ledger, b: Ledger, c: Ledger)
    requires LedgerGrows(a, b) && LedgerGrows(b, c)
    ensures LedgerGrows(a, c)
  {
    hide BatchMoves;
    forall i | 0 <= i < |a.batches| ensures BatchMoves(a.batches[i], c.batches[i]) {
      MovesThrough(a.batches[i], b.batches[i], c.batches[i]);
    }
  }

  // Every ledger a run reaches, in either reading, is sound: no game in two batches, every batch
  // squares its games, and its status is the one its transfers have.
  lemma {:induction false} RunOk(claims: Claims, ops: seq<Op>)
    requires SoundRun(claims, ops)
    ensures LedgerOk(Reached(claims, ops))
  {
    hide Step, Sound, LedgerGrows;
    if ops == [] {
      Empty();
    } else {
      var init := ops[..|ops| - 1];
      assert SoundRun(claims, init) by {
        forall i | 0 <= i < |init| ensures Sound(Reached(claims, init[..i]), init[i]) { assert init[..i]
            == ops[..i] && Sound(Reached(claims, ops[..i]), ops[i]); }
      }
      RunOk(claims, init);
      assert Sound(Reached(claims, ops[..|init|]), ops[|init|]);
      StepKeeps(claims, Reached(claims, init), ops[|init|]);
    }
  }

  lemma Empty()
    ensures LedgerOk(Ledger([], [], map[], {}))
  {
  }

  // From any point of a run to any later one transfers only go from open to
  // marked to resolved, and no batch or game is lost or rewritten.
  lemma {:induction false} RunGrows(claims: Claims, ops: seq<Op>, i: nat)
    requires SoundRun(claims, ops) && i <= |ops|
    ensures LedgerGrows(Reached(claims, ops[..i]), Reached(claims, ops))
  {
    hide Step, Sound, LedgerGrows, LedgerOk;
    if i == |ops| {
      assert ops[..i] == ops;
      BatchesStay(Reached(claims, ops), Reached(claims, ops));
    } else {
      var init := ops[..|ops| - 1];
      assert init[..i] == ops[..i];
      assert SoundRun(claims, init) by {
        forall k | 0 <= k < |init| ensures Sound(Reached(claims, init[..k]), init[k]) { assert init[..k]
            == ops[..k] && Sound(Reached(claims, ops[..k]), ops[k]); }
      }
      RunGrows(claims, init, i);
      RunOk(claims, init);
      assert Sound(Reached(claims, ops[..|init|]), ops[|init|]);
      StepKeeps(claims, Reached(claims, init), ops[|init|]);
      GrowsThrough(Reached(claims, ops[..i]), Reached(claims, init), Reached(claims, ops));
    }
  }

  // As written, no run ever holds a second settlement, of any room.
  lemma {:induction false} AtMostOneBatch(ops: seq<Op>)
    requires SoundRun(AsWritten, ops)
    ensures |Reached(AsWritten, ops).batches| <= 1
  {
    hide Step, Sound, LedgerGrows, LedgerOk;
    if ops != [] {
      var init := ops[..|ops| - 1];
      assert SoundRun(AsWritten, init) by {
        forall k | 0 <= k < |init| ensures Sound(Reached(AsWritten, init[..k]), init[k]) {
          assert init[..k] == ops[..k] && Sound(Reached(AsWritten, ops[..k]), ops[k]);
        }
      }
      AtMostOneBatch(init);
      RunOk(AsWritten, init);
      StepFew(Reached(AsWritten, init), ops[|init|]);
    }
  }

  lemma StepFew(l: Ledger, op: Op)
    requires LedgerOk(l) && |l.batches| <= 1
    ensures |Step(AsWritten, l, op).0.batches| <= 1
  {
    hide LedgerOk, Unclaimed, Balances, SortBy, SortedBalances, Plan, Debtors, Creditors, AmountOf, NewRows,
      Existing, Claimed, Moved, StatusOf;
    SomeGames(l);
  }

  // One room, two players, two games, a settlement asked for after each.
  function Evening(id: string): GameResult {
    GameResult("room", "table", "", id, "flush", [Row("alice", 10), Row("bob", -10)])
  }

  function Asked(key: string): Request {
    Request(TableScope, "table", key)
  }

  function TwoGames(mint: nat -> nat): seq<Op> {
    [OpRecord(Evening("g1")), OpCreate(true, "room", "bob", Asked("k1"), 1, mint),
     OpRecord(Evening("g2")), OpCreate(true, "room", "bob", Asked("k2"), 2, mint)]
  }

  // As written the second settlement raises; as intended it is given.
  lemma SecondRaises(mint: nat -> nat)
    requires forall i, j :: mint(i) == mint(j) ==> i == j
    ensures var ops := TwoGames(mint);
            && SoundRun(AsWritten, ops) && SoundRun(AsIntended, ops)
            && Step(AsWritten, Reached(AsWritten, ops[..3]), ops[3]).1 == Raised
            && Step(AsIntended, Reached(AsIntended, ops[..3]), ops[3]).1.Given?
  {
    hide LedgerOk, Step, SoundRun, Reached;
    var l := FirstEvening(AsWritten, mint);
    var k := FirstEvening(AsIntended, mint);
    SecondEvening(l, mint);
    SecondEvening(k, mint);
  }

  lemma OneGameOpen(games: seq<GameResult>, batches: seq<Batch>, id: string, key: string)
    requires games != [] && games[|games| - 1] == Evening(id) && !ClaimedIn(batches, "room", id)
    requires forall i :: 0 <= i < |games| - 1 ==> ClaimedIn(batches, "room", games[i].gameId)
    ensures Unclaimed(games, batches, "room", Asked(key)) == [Evening(id)]
    ensures AmountOf(Balances([], [Evening(id)]), "bob") == -10
    decreases |games|
  {
    if |games| > 1 { OneGameOpen(games[1..], batches, id, key); }
    var amounts := Evening(id).amounts;
    assert amounts[1..] == [Row("bob", -10)] && amounts[1..][1..] == [];
    assert [Evening(id)][1..] == [];
    assert AmountOf(amounts, "bob") == AmountOf(amounts[1..], "bob") == -10 + AmountOf([], "bob");
    assert AmountIn([Evening(id)], "bob") == AmountOf(amounts, "bob");
  }

  lemma EveningFormed(id: string)
    ensures ResultFormed(Evening(id))
  {
    var amounts := Evening(id).amounts;
    assert amounts[1..] == [Row("bob", -10)] && amounts[1..][1..] == [];
  }

  // The first settlement claims the first game.
  lemma FirstSettlement(claims: Claims, mint: nat -> nat)
    requires forall i, j :: mint(i) == mint(j) ==> i == j
    ensures var l := CreateSettlement(claims, AfterOne(), true, "room", "bob", Asked("k1"), 1, mint).0;
            && LedgerOk(l) && l.games == [Evening("g1")] && |l.batches| == 1
            && l.batches[0].games == ["g1"] && l.batches[0].roomId == "room" && l.batches[0].batchId == 1
            && l.requestIds.Keys == {("bob", "k1")}
  {
    hide LedgerOk, Unclaimed, Balances, SortBy, SortedBalances, Plan, Debtors, Creditors, AmountOf, NewRows,
      ClaimedIn, Existing, Claimed,
      ResultFormed;
    var first := AfterOne();
    EveningFormed("g1");
    Empty();
    RecordKeeps(Ledger([], [], map[], {}), Evening("g1"));
    assert first == RecordGame(Ledger([], [], map[], {}), Evening("g1")).0;
    NoneClaimed("g1");
    OneGameOpen(first.games, [], "g1", "k1");
    CreateKeeps(claims, first, true, "room", "bob", Asked("k1"), 1, mint);
    NewBatchOk(first, "room", "bob", Asked("k1"), 1, mint);
    KeyIsKnown(first, "room", "bob", "k1");
    assert GameIds([Evening("g1")]) == ["g1"];
    FreeGames(first, "room", Asked("k1"));
  }

  function AfterOne(): Ledger {
    Ledger([Evening("g1")], [], map[], {})
  }

  // After the first settlement and the second game.
  lemma FirstEvening(claims: Claims, mint: nat -> nat) returns (l: Ledger)
    requires forall i, j :: mint(i) == mint(j) ==> i == j
    ensures l == Reached(claims, TwoGames(mint)[..3]) && SoundRun(claims, TwoGames(mint)) && LedgerOk(l)
    ensures l.games == [Evening("g1"), Evening("g2")] && |l.batches| == 1
    ensures l.batches[0].games == ["g1"] && l.batches[0].roomId == "room" && l.batches[0].batchId == 1
    ensures l.requestIds.Keys == {("bob", "k1")}
  {
    hide LedgerOk, CreateSettlement, ResultFormed;
    var ops := TwoGames(mint);
    var a, b := ops[..1], ops[..2];
    assert a[..0] == [] && b[..1] == a && ops[..3][..2] == b && ops[..0] == [];
    EveningFormed("g1");
    EveningFormed("g2");
    assert Reached(claims, a) == AfterOne();
    FirstSettlement(claims, mint);
    var second := Reached(claims, b);
    RecordKeeps(second, Evening("g2"));
    l := Reached(claims, ops[..3]);
    forall i | 0 <= i < |ops| ensures Sound(Reached(claims, ops[..i]), ops[i]) {
      assert i == 0 || i == 1 || i == 2 || i == 3;
    }
  }

  lemma NoneClaimed(id: string)
    ensures !ClaimedIn([], "room", id)
  {
  }

  lemma SecondEvening(l: Ledger, mint: nat -> nat)
    requires LedgerOk(l) && l.games == [Evening("g1"), Evening("g2")] && |l.batches| == 1
    requires l.batches[0].games == ["g1"] && l.batches[0].roomId == "room" && l.batches[0].batchId == 1
    requires l.requestIds.Keys == {("bob", "k1")}
    requires forall i, j :: mint(i) == mint(j) ==> i == j
    ensures Step(AsWritten, l, TwoGames(mint)[3]).1 == Raised && Step(AsIntended, l, TwoGames(mint)[3]).1.Given?
  {
    hide LedgerOk, Unclaimed, Balances, AmountOf, CreateSettlement;
    assert BatchIds(l.batches) == [1];
    assert ClaimedIn(l.batches, "room", "g1");
    OneGameOpen(l.games, l.batches, "g2", "k2");
    RaisedExactly(l, true, "room", "bob", Asked("k2"), 2, mint);
    GivenExactly(l, "room", "bob", Asked("k2"), 2, mint);
  }
}
