// Recorded games, the balances they add up to, and the two orders in which
// balances are listed. A dictionary is a list of rows with distinct players;
// adding an amount keeps the others where they are. Sorting moves rows about and
// changes nobody's amount, and dropping the zero rows changes none either.
// The sum over zero-sum games is zero.
module LedgerBalances {
  import opened Prelude
  import opened LedgerPlan

  // ---- records

  datatype GameResult = GameResult(roomId: string, tableId: string, tableName: string, gameId: string,
      gameType: string, amounts: seq<Row>)

  // What the result model checks.
  predicate ResultFormed(r: GameResult) {
    |r.amounts| >= 2 && NoDup(Players(r.amounts)) && Total(r.amounts) == 0
  }

  // ---- balances over games

  // balances[player] += amount on a dictionary in insertion order.
  function AddAmount(rows: seq<Row>, player: string, amount: int): (r: seq<Row>)
    ensures forall p :: AmountOf(r, p) == AmountOf(rows, p) + if p == player then amount else 0
    ensures Total(r) == Total(rows) + amount
    ensures forall p :: p in Players(r) <==> p in Players(rows) || p == player
    ensures NoDup(Players(rows)) ==> NoDup(Players(r))
  {
    if rows == [] then
      assert Players([Row(player, amount)]) == [player];
      [Row(player, amount)]
    else if rows[0].player == player then
      ReplaceFirst(rows, amount);
      [Row(player, rows[0].amount + amount)] + rows[1..]
    else
      var rest := AddAmount(rows[1..], player, amount);
      KeepFirst(rows, rest, player, amount);
      [rows[0]] + rest
  }

  lemma ReplaceFirst(rows: seq<Row>, amount: int)
    requires rows != []
    ensures var r := [Row(rows[0].player, rows[0].amount + amount)] + rows[1..];
            && (forall p :: AmountOf(r, p) == AmountOf(rows, p) + if p == rows[0].player then amount else 0)
            && Total(r) == Total(rows) + amount && Players(r) == Players(rows)
            && forall p :: p in Players(r) <==> p in Players(rows) || p == rows[0].player
  {
    var r := [Row(rows[0].player, rows[0].amount + amount)] + rows[1..];
    forall p ensures AmountOf(r, p) == AmountOf(rows, p) + if p == rows[0].player then amount else 0 {
      Cons(r[0], rows[1..], p);
    }
    Cons(r[0], rows[1..], "");
    assert Players(r) == Players(rows);
    assert Players(rows)[0] == rows[0].player;
  }

  lemma KeepFirst(rows: seq<Row>, rest: seq<Row>, player: string, amount: int)
    requires rows != [] && rows[0].player != player
    requires forall p :: AmountOf(rest, p) == AmountOf(rows[1..], p) + if p == player then amount else 0
    requires Total(rest) == Total(rows[1..]) + amount
    requires forall p :: p in Players(rest) <==> p in Players(rows[1..]) || p == player
    requires NoDup(Players(rows[1..])) ==> NoDup(Players(rest))
    ensures var r := [rows[0]] + rest;
            && (forall p :: AmountOf(r, p) == AmountOf(rows, p) + if p == player then amount else 0)
            && Total(r) == Total(rows) + amount
            && (forall p :: p in Players(r) <==> p in Players(rows) || p == player)
            && (NoDup(Players(rows)) ==> NoDup(Players(r)))
  {
    var r := [rows[0]] + rest;
    forall p ensures AmountOf(r, p) == AmountOf(rows, p) + if p == player then amount else 0 {
      Cons(rows[0], rest, p);
    }
    Cons(rows[0], rest, "");
    assert Players(r) == [rows[0].player] + Players(rest);
    assert Players(rows) == [rows[0].player] + Players(rows[1..]);
    NoDupConcat([rows[0].player], Players(rest));
    NoDupConcat([rows[0].player], Players(rows[1..]));
    if NoDup(Players(rows)) {
      assert rows[0].player in Elems([rows[0].player]);
      assert rows[0].player !in Players(rows[1..]) by { assert rows[0].player !in Elems(Players(rows[1..])); }
      forall x | x in Elems([rows[0].player]) ensures x !in Elems(Players(rest)) {}
    }
  }

  function AddRows(rows: seq<Row>, more: seq<Row>): (r: seq<Row>)
    ensures forall p :: AmountOf(r, p) == AmountOf(rows, p) + AmountOf(more, p)
    ensures Total(r) == Total(rows) + Total(more)
    ensures NoDup(Players(rows)) ==> NoDup(Players(r))
    decreases |more|
  {
    if more == [] then rows else AddRows(AddAmount(rows, more[0].player, more[0].amount), more[1..])
  }

  // Each player's total over some games.
  function AmountIn(games: seq<GameResult>, player: string): int {
    if games == [] then 0 else AmountOf(games[0].amounts, player) + AmountIn(games[1..], player)
  }

  function Balances(rows: seq<Row>, games: seq<GameResult>): (r: seq<Row>)
    ensures forall p :: AmountOf(r, p) == AmountOf(rows, p) + AmountIn(games, p)
    ensures NoDup(Players(rows)) ==> NoDup(Players(r))
    ensures (forall i :: 0 <= i < |games| ==> ResultFormed(games[i])) ==> Total(r) == Total(rows)
    decreases |games|
  {
    if games == [] then rows else Balances(AddRows(rows, games[0].amounts), games[1..])
  }

  // ---- order

  predicate StringLess(a: string, b: string) {
    if a == [] then b != []
    else if b == [] then false
    else a[0] < b[0] || (a[0] == b[0] && StringLess(a[1..], b[1..]))
  }

  lemma {:induction false} StringTotal(a: string, b: string)
    ensures StringLess(a, b) ==> !StringLess(b, a)
    ensures StringLess(a, b) || StringLess(b, a) || a == b
  {
    if a != [] && b != [] {
      StringTotal(a[1..], b[1..]);
      assert a == [a[0]] + a[1..] && b == [b[0]] + b[1..];
    }
  }

  lemma {:induction false} StringSplits(a: string, b: string, c: string)
    requires StringLess(a, c)
    ensures StringLess(a, b) || StringLess(b, c)
  {
    if a != [] && b != [] && c != [] && a[0] == b[0] == c[0] {
      StringSplits(a[1..], b[1..], c[1..]);
    }
  }

  predicate PlayerBefore(a: Row, b: Row) {
    StringLess(a.player, b.player)
  }

  // key=(-amount, player)
  predicate LargerBefore(a: Row, b: Row) {
    a.amount > b.amount || (a.amount == b.amount && StringLess(a.player, b.player))
  }

  // A stable insertion into rows kept in some order.
  function InsertBy(before: (Row, Row) -> bool, row: Row, rows: seq<Row>): (r: seq<Row>)
    ensures forall p :: AmountOf(r, p) == AmountOf(rows, p) + if p == row.player then row.amount else 0
    ensures Total(r) == Total(rows) + row.amount
    ensures forall p :: p in Players(r) <==> p in Players(rows) || p == row.player
    ensures NoDup(Players(rows)) && row.player !in Players(rows) ==> NoDup(Players(r))
    ensures forall x :: x in r <==> x in rows || x == row
  {
    if rows == [] || !before(rows[0], row) then
      AddFront(row, rows);
      [row] + rows
    else
      var rest := InsertBy(before, row, rows[1..]);
      InsertKeepsFirst(row, rows, rest);
      [rows[0]] + rest
  }

  lemma OnePlayer(player: string)
    ensures NoDup([player])
  {
  }

  lemma AddFront(row: Row, rows: seq<Row>)
    ensures [] + rows == rows
    ensures var r := [row] + rows;
            && (forall p :: AmountOf(r, p) == AmountOf(rows, p) + if p == row.player then row.amount else 0)
            && Total(r) == Total(rows) + row.amount
            && (forall p :: p in Players(r) <==> p in Players(rows) || p == row.player)
            && (NoDup(Players(rows)) && row.player !in Players(rows) ==> NoDup(Players(r)))
  {
    hide AmountOf, Total, NoDup;
    var r := [row] + rows;
    forall p ensures AmountOf(r, p) == AmountOf(rows, p) + if p == row.player then row.amount
        else 0 { Cons(row, rows, p); }
    Cons(row, rows, "");
    assert Players(r) == [row.player] + Players(rows);
    OnePlayer(row.player);
    NoDupConcat([row.player], Players(rows));
    if row.player !in Players(rows) {
      forall x | x in Elems([row.player]) ensures x !in Elems(Players(rows)) { assert x == row.player; }
    }
  }

  lemma InsertKeepsFirst(row: Row, rows: seq<Row>, rest: seq<Row>)
    requires rows != []
    requires forall p :: AmountOf(rest, p) == AmountOf(rows[1..], p) + if p == row.player then row.amount else 0
    requires Total(rest) == Total(rows[1..]) + row.amount
    requires forall p :: p in Players(rest) <==> p in Players(rows[1..]) || p == row.player
    requires NoDup(Players(rows[1..])) && row.player !in Players(rows[1..]) ==> NoDup(Players(rest))
    ensures var r := [rows[0]] + rest;
            && (forall p :: AmountOf(r, p) == AmountOf(rows, p) + if p == row.player then row.amount else 0)
            && Total(r) == Total(rows) + row.amount
            && (forall p :: p in Players(r) <==> p in Players(rows) || p == row.player)
            && (NoDup(Players(rows)) && row.player !in Players(rows) ==> NoDup(Players(r)))
  {
    var r := [rows[0]] + rest;
    forall p ensures AmountOf(r, p) == AmountOf(rows, p) + if p == row.player then row.amount
        else 0 { Cons(rows[0], rest, p); }
    Cons(rows[0], rest, "");
    assert Players(r) == [rows[0].player] + Players(rest);
    assert Players(rows) == [rows[0].player] + Players(rows[1..]);
    NoDupConcat([rows[0].player], Players(rest));
    NoDupConcat([rows[0].player], Players(rows[1..]));
    if NoDup(Players(rows)) && row.player !in Players(rows) {
      assert rows[0].player in Elems([rows[0].player]);
      assert rows[0].player !in Players(rows[1..]) by { assert rows[0].player !in Elems(Players(rows[1..])); }
      forall x | x in Elems([rows[0].player]) ensures x !in Elems(Players(rest)) {}
    }
  }

  // sorted(...)
  function SortBy(before: (Row, Row) -> bool, rows: seq<Row>): (r: seq<Row>)
    ensures forall p :: AmountOf(r, p) == AmountOf(rows, p)
    ensures Total(r) == Total(rows)
    ensures forall p :: p in Players(r) <==> p in Players(rows)
    ensures NoDup(Players(rows)) ==> NoDup(Players(r))
    ensures forall x :: x in r <==> x in rows
  {
    if rows == [] then []
    else
      FirstApart(rows);
      InsertBy(before, rows[0], SortBy(before, rows[1..]))
  }

  lemma FirstApart(rows: seq<Row>)
    requires rows != []
    ensures Players(rows) == [rows[0].player] + Players(rows[1..])
    ensures NoDup(Players(rows)) ==> NoDup(Players(rows[1..])) && rows[0].player !in Players(rows[1..])
  {
    assert Players(rows) == [rows[0].player] + Players(rows[1..]);
    NoDupConcat([rows[0].player], Players(rows[1..]));
    assert rows[0].player in Elems([rows[0].player]);
    assert rows[0].player in Players(rows[1..]) <==> rows[0].player in Elems(Players(rows[1..]));
  }

  ghost predicate Ordered(before: (Row, Row) -> bool, rows: seq<Row>) {
    forall i, j :: 0 <= i < j < |rows| ==> !before(rows[j], rows[i])
  }

  // A strict order in which a smaller row can always be told from a larger one.
  ghost predicate Ranks(before: (Row, Row) -> bool) {
    && (forall a, b :: before(a, b) ==> !before(b, a))
    && forall a, b, c :: before(a, c) ==> before(a, b) || before(b, c)
  }

  lemma {:induction false} InsertOrdered(before: (Row, Row) -> bool, row: Row, rows: seq<Row>)
    requires Ranks(before) && Ordered(before, rows)
    ensures Ordered(before, InsertBy(before, row, rows))
  {
    var r := InsertBy(before, row, rows);
    if rows == [] {
    } else if !before(rows[0], row) {
      forall j | 0 <= j < |rows| ensures !before(rows[j], row) {
        assert j > 0 ==> !before(rows[j], rows[0]);
      }
    } else {
      var rest := InsertBy(before, row, rows[1..]);
      InsertOrdered(before, row, rows[1..]);
      forall j | 0 <= j < |rest| ensures !before(rest[j], rows[0]) {
        assert rest[j] in rest;
        if rest[j] != row { assert rest[j] in rows[1..]; }
      }
    }
  }

  lemma {:induction false} SortOrdered(before: (Row, Row) -> bool, rows: seq<Row>)
    requires Ranks(before)
    ensures Ordered(before, SortBy(before, rows))
  {
    if rows != [] {
      SortOrdered(before, rows[1..]);
      InsertOrdered(before, rows[0], SortBy(before, rows[1..]));
    }
  }

  // Both listings are in order.
  lemma ListingsOrdered(rows: seq<Row>)
    ensures Ordered(PlayerBefore, SortBy(PlayerBefore, rows)) && Ordered(LargerBefore, SortBy(LargerBefore, rows))
  {
    forall a: Row, b: Row ensures PlayerBefore(a, b) ==> !PlayerBefore(b, a) { StringTotal(a.player, b.player); }
    forall a: Row, b: Row ensures LargerBefore(a, b) ==> !LargerBefore(b, a) { StringTotal(a.player, b.player); }
    forall a: Row, b: Row, c: Row ensures PlayerBefore(a, c) ==> PlayerBefore(a, b) || PlayerBefore(b, c) {
      if PlayerBefore(a, c) { StringSplits(a.player, b.player, c.player); }
    }
    forall a: Row, b: Row, c: Row ensures LargerBefore(a, c) ==> LargerBefore(a, b) || LargerBefore(b, c) {
      if StringLess(a.player, c.player) { StringSplits(a.player, b.player, c.player); }
    }
    hide PlayerBefore, LargerBefore;
    SortOrdered(PlayerBefore, rows);
    SortOrdered(LargerBefore, rows);
  }

  lemma DropZero(row: Row, rest: seq<Row>)
    ensures forall p :: AmountOf((if row.amount != 0 then [row] else []) + rest, p) ==
                        (if row.player == p then row.amount else 0) + AmountOf(rest, p)
  {
    hide AmountOf;
    assert [] + rest == rest;
    forall p ensures AmountOf((if row.amount != 0 then [row] else []) + rest, p) ==
                     (if row.player == p then row.amount else 0) + AmountOf(rest, p) {
      Cons(row, rest, p);
    }
  }

  // sorted_balances: the nonzero rows, largest first.
  function NonzeroRows(rows: seq<Row>): (r: seq<Row>)
    ensures forall p :: AmountOf(r, p) == AmountOf(rows, p)
    ensures forall i :: 0 <= i < |r| ==> r[i].amount != 0
  {
    if rows == [] then []
    else
      var rest := NonzeroRows(rows[1..]);
      DropZero(rows[0], rest);
      (if rows[0].amount != 0 then [rows[0]] else []) + rest
  }

  function SortedBalances(rows: seq<Row>): (r: seq<Row>)
    ensures forall p :: AmountOf(r, p) == AmountOf(rows, p)
  {
    NonzeroRows(SortBy(LargerBefore, rows))
  }
}
