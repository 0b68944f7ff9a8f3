// Who pays whom: balances, and the two-pointer plan that brings every one of
// them to zero.
module LedgerPlan {
  import opened Prelude

  datatype Row = Row(player: string, amount: int)
  datatype Transfer = Transfer(payer: string, payee: string, amount: int)

  function Players(rows: seq<Row>): (r: seq<string>)
    ensures |r| == |rows| && forall i :: 0 <= i < |r| ==> r[i] == rows[i].player
  {
    seq(|rows|, i requires 0 <= i < |rows| => rows[i].player)
  }

  function Total(rows: seq<Row>): int {
    if rows == [] then 0 else rows[0].amount + Total(rows[1..])
  }

  // What the rows say about one player.
  function AmountOf(rows: seq<Row>, player: string): int {
    if rows == [] then 0 else (if rows[0].player == player then rows[0].amount else 0) + AmountOf(rows[1..], player)
  }

  function PaidBy(plan: seq<Transfer>, player: string): int {
    if plan == [] then 0 else (if plan[0].payer == player then plan[0].amount else 0) + PaidBy(plan[1..], player)
  }

  function ReceivedBy(plan: seq<Transfer>, player: string): int {
    if plan == [] then 0 else (if plan[0].payee == player then plan[0].amount else 0) + ReceivedBy(plan[1..], player)
  }

  // ---- creditors and debtors

  function Creditors(rows: seq<Row>): (r: seq<Row>)
    ensures forall i :: 0 <= i < |r| ==> r[i].amount > 0 && r[i] in rows
    ensures |r| <= |rows|
  {
    if rows == [] then [] else (if rows[0].amount > 0 then [rows[0]] else []) + Creditors(rows[1..])
  }

  function Debtors(rows: seq<Row>): (r: seq<Row>)
    ensures forall i :: 0 <= i < |r| ==> r[i].amount > 0 && Row(r[i].player, -r[i].amount) in rows
    ensures |r| <= |rows|
  {
    if rows == [] then [] else (if rows[0].amount < 0 then [Row(rows[0].player, -rows[0].amount)] else []) + Debtors(rows[1..])
  }

  function Nonzero(rows: seq<Row>): nat {
    if rows == [] then 0 else (if rows[0].amount != 0 then 1 else 0) + Nonzero(rows[1..])
  }

  lemma Cons(row: Row, rest: seq<Row>, player: string)
    ensures Total([row] + rest) == row.amount + Total(rest)
    ensures AmountOf([row] + rest, player) == (if row.player == player then row.amount else 0) + AmountOf(rest, player)
  {
    assert ([row] + rest)[1..] == rest;
  }

  lemma Unfold(rows: seq<Row>, player: string)
    requires rows != []
    ensures var row, rest := rows[0], rows[1..];
            && Total(rows) == row.amount + Total(rest)
            && AmountOf(rows, player) == (if row.player == player then row.amount else 0) + AmountOf(rest, player)
            && Nonzero(rows) == (if row.amount != 0 then 1 else 0) + Nonzero(rest)
            && Creditors(rows) == (if row.amount > 0 then [row] else []) + Creditors(rest)
            && Debtors(rows) == (if row.amount < 0 then [Row(row.player, -row.amount)] else []) + Debtors(rest)
  {
  }

  lemma {:induction false} Sides(rows: seq<Row>, player: string)
    ensures Total(Creditors(rows)) - Total(Debtors(rows)) == Total(rows)
    ensures AmountOf(Creditors(rows), player) - AmountOf(Debtors(rows), player) == AmountOf(rows, player)
    ensures |Creditors(rows)| + |Debtors(rows)| == Nonzero(rows)
  {
    if rows != [] {
      hide Creditors, Debtors, Total, AmountOf, Nonzero;
      var row, rest := rows[0], rows[1..];
      var c, d := Creditors(rest), Debtors(rest);
      Sides(rest, player);
      Unfold(rows, player);
      Cons(row, c, player);
      Cons(Row(row.player, -row.amount), d, player);
      assert [] + c == c && [] + d == d;
    }
  }

  // ---- the plan

  predicate Positive(rows: seq<Row>) {
    forall i :: 0 <= i < |rows| ==> rows[i].amount > 0
  }

  function Less(row: Row, amount: int): Row {
    row.(amount := row.amount - amount)
  }

  // The rows with the first one reduced, or dropped once it is spent.
  function Spend(rows: seq<Row>, amount: int): (r: seq<Row>)
    requires rows != [] && amount <= rows[0].amount
    ensures |r| <= |rows| && (rows[0].amount == amount ==> |r| == |rows| - 1)
    ensures Positive(rows) ==> Positive(r)
  {
    if rows[0].amount == amount then rows[1..] else [Less(rows[0], amount)] + rows[1..]
  }

  function Smaller(a: int, b: int): int {
    if a <= b then a else b
  }

  function Plan(debtors: seq<Row>, creditors: seq<Row>): seq<Transfer>
    decreases |debtors| + |creditors|
  {
    if debtors == [] || creditors == [] then []
    else
      var amount := Smaller(debtors[0].amount, creditors[0].amount);
      [Transfer(debtors[0].player, creditors[0].player, amount)] + Plan(Spend(debtors, amount),
          Spend(creditors, amount))
  }

  lemma SpendTotals(rows: seq<Row>, amount: int, player: string)
    requires rows != [] && amount <= rows[0].amount
    ensures Total(Spend(rows, amount)) == Total(rows) - amount
    ensures AmountOf(Spend(rows, amount), player)
            == AmountOf(rows, player) - (if rows[0].player == player then amount else 0)
    ensures forall i :: 0 <= i < |Spend(rows, amount)| ==> Spend(rows, amount)[i].player in Players(rows)
  {
    var r := Spend(rows, amount);
    if rows[0].amount != amount { assert r[1..] == rows[1..]; }
    forall i | 0 <= i < |r| ensures r[i].player in Players(rows) {
      if rows[0].amount == amount { assert r[i].player == Players(rows)[i + 1]; }
          else { assert r[i].player == Players(rows)[i]; }
    }
  }

  lemma {:induction false} PositiveTotal(rows: seq<Row>)
    requires Positive(rows)
    ensures Total(rows) >= 0 && (rows != [] ==> Total(rows) > 0)
  {
    if rows != [] { PositiveTotal(rows[1..]); }
  }

  // Every transfer is positive, from a debtor to a creditor.
  lemma {:induction false} PlanShape(debtors: seq<Row>, creditors: seq<Row>)
    requires Positive(debtors) && Positive(creditors)
    ensures forall i :: 0 <= i < |Plan(debtors, creditors)| ==>
              var t := Plan(debtors, creditors)[i]; t.amount > 0 && t.payer in Players(debtors) && t.payee in Players(creditors)
    decreases |debtors| + |creditors|
  {
    if debtors != [] && creditors != [] {
      var amount := Smaller(debtors[0].amount, creditors[0].amount);
      SpendTotals(debtors, amount, "");
      SpendTotals(creditors, amount, "");
      PlanShape(Spend(debtors, amount), Spend(creditors, amount));
      Narrower(Spend(debtors, amount), debtors);
      Narrower(Spend(creditors, amount), creditors);
      assert Players(debtors)[0] == debtors[0].player && Players(creditors)[0] == creditors[0].player;
    }
  }

  lemma Narrower(a: seq<Row>, b: seq<Row>)
    requires forall i :: 0 <= i < |a| ==> a[i].player in Players(b)
    ensures forall p :: p in Players(a) ==> p in Players(b)
  {
    forall p | p in Players(a) ensures p in Players(b) {
      var i :| 0 <= i < |a| && Players(a)[i] == p;
      assert a[i].player == p;
    }
  }

  // Equal totals: everyone pays what they owe and receives what they are due,
  // in one transfer fewer than there are people.
  lemma {:induction false} PlanSettles(debtors: seq<Row>, creditors: seq<Row>, player: string)
    requires Positive(debtors) && Positive(creditors) && Total(debtors) == Total(creditors)
    ensures PaidBy(Plan(debtors, creditors), player) == AmountOf(debtors, player)
    ensures ReceivedBy(Plan(debtors, creditors), player) == AmountOf(creditors, player)
    ensures |debtors| + |creditors| > 0 ==> |Plan(debtors, creditors)| <= |debtors| + |creditors| - 1
    decreases |debtors| + |creditors|
  {
    PositiveTotal(debtors);
    PositiveTotal(creditors);
    if debtors != [] && creditors != [] {
      var amount := Smaller(debtors[0].amount, creditors[0].amount);
      var d, c := Spend(debtors, amount), Spend(creditors, amount);
      SpendTotals(debtors, amount, player);
      SpendTotals(creditors, amount, player);
      PlanSettles(d, c, player);
      var plan := Plan(debtors, creditors);
      assert plan[1..] == Plan(d, c);
    }
  }

  // ---- the algorithm, on arrays, with two moving indices

  lemma PlanStep(done: seq<Transfer>, debtors: seq<Row>, creditors: seq<Row>)
    requires debtors != [] && creditors != []
    ensures var amount := Smaller(debtors[0].amount, creditors[0].amount);
            (done + [Transfer(debtors[0].player, creditors[0].player, amount)]) + Plan(Spend(debtors, amount),
                Spend(creditors, amount))
            == done + Plan(debtors, creditors)
  {
    hide Spend;
  }

  // Reducing the row at an index spends from the rows that start there.
  lemma SpendAt(rows: seq<Row>, k: nat, amount: int)
    requires k < |rows| && amount <= rows[k].amount && rows[k..] != [] && amount <= rows[k..][0].amount
    ensures var after := rows[k := Less(rows[k], amount)];
            (if after[k].amount == 0 then after[k + 1..] else after[k..]) == Spend(rows[k..], amount)
  {
  }

  method TransferPlan(rows: seq<Row>) returns (transfers: seq<Transfer>)
    ensures transfers == Plan(Debtors(rows), Creditors(rows))
  {
    hide Plan, Debtors, Creditors, Spend, Less;
    var d, c := Debtors(rows), Creditors(rows);
    var debtors := new Row[|d|](i requires 0 <= i < |d| => d[i]);
    var creditors := new Row[|c|](i requires 0 <= i < |c| => c[i]);
    assert debtors[..] == d && creditors[..] == c;
    transfers := [];
    var payer, payee := 0, 0;
    while payer < debtors.Length && payee < creditors.Length
      invariant 0 <= payer <= debtors.Length && 0 <= payee <= creditors.Length
      invariant Positive(debtors[..][payer..]) && Positive(creditors[..][payee..])
      invariant transfers + Plan(debtors[..][payer..], creditors[..][payee..]) == Plan(d, c)
      decreases debtors.Length - payer + creditors.Length - payee
    {
      ghost var ds, cs := debtors[..], creditors[..];
      assert ds[payer..][0] == debtors[payer] && cs[payee..][0] == creditors[payee];
      PlanStep(transfers, ds[payer..], cs[payee..]);
      var amount := Smaller(debtors[payer].amount, creditors[payee].amount);
      SpendAt(ds, payer, amount);
      SpendAt(cs, payee, amount);
      OneIsSpent(ds[payer], cs[payee]);
      transfers := transfers + [Transfer(debtors[payer].player, creditors[payee].player, amount)];
      debtors[payer] := Less(debtors[payer], amount);
      creditors[payee] := Less(creditors[payee], amount);
      assert debtors[..] == ds[payer := Less(ds[payer], amount)];
      assert creditors[..] == cs[payee := Less(cs[payee], amount)];
      if debtors[payer].amount == 0 {
        payer := payer + 1;
      }
      if creditors[payee].amount == 0 {
        payee := payee + 1;
      }
    }
    NothingLeft(debtors[..][payer..], creditors[..][payee..]);
  }

  // Each transfer finishes with its debtor, its creditor, or both.
  lemma OneIsSpent(debtor: Row, creditor: Row)
    ensures var amount := Smaller(debtor.amount, creditor.amount);
            Less(debtor, amount).amount == 0 || Less(creditor, amount).amount == 0
  {
  }

  lemma NothingLeft(debtors: seq<Row>, creditors: seq<Row>)
    requires debtors == [] || creditors == []
    ensures Plan(debtors, creditors) == []
  {
  }

  // ---- what the plan does to balances

  ghost predicate NetsTo(plan: seq<Transfer>, rows: seq<Row>) {
    forall player :: ReceivedBy(plan, player) - PaidBy(plan, player) == AmountOf(rows, player)
  }

  // For any zero-sum balances: every balance is met exactly, every transfer is
  // positive, nobody both pays and receives, and there is at least one transfer
  // fewer than there are nonzero balances.
  lemma PlanSettlesBalances(rows: seq<Row>)
    requires Total(rows) == 0 && NoDup(Players(rows))
    ensures var plan := Plan(Debtors(rows), Creditors(rows));
            && NetsTo(plan, rows)
            && (forall i :: 0 <= i < |plan| ==> plan[i].amount > 0)
            && (forall i, j :: 0 <= i < |plan| && 0 <= j < |plan| ==> plan[i].payer != plan[j].payee)
            && |plan| <= (if Nonzero(rows) > 0 then Nonzero(rows) - 1 else 0)
            && (plan == [] <==> Nonzero(rows) == 0)
  {
    hide Plan, Debtors, Creditors, Total, AmountOf, Nonzero, PaidBy, ReceivedBy, NoDup;
    var d, c := Debtors(rows), Creditors(rows);
    var plan := Plan(d, c);
    Sides(rows, "");
    PlanShape(d, c);
    PlanSettles(d, c, "");
    forall player ensures ReceivedBy(plan, player) - PaidBy(plan, player) == AmountOf(rows, player) {
      Sides(rows, player);
      PlanSettles(d, c, player);
    }
    forall i, j | 0 <= i < |plan| && 0 <= j < |plan| ensures plan[i].payer != plan[j].payee {
      NotBoth(rows, plan[i].payer, plan[j].payee);
    }
    PositiveTotal(d);
    PositiveTotal(c);
    NoTotal();
    if d == [] || c == [] { NothingLeft(d, c); } else { PlanBegins(d, c); }
  }

  lemma NoTotal()
    ensures Total([]) == 0
  {
  }

  lemma PlanBegins(debtors: seq<Row>, creditors: seq<Row>)
    requires debtors != [] && creditors != []
    ensures Plan(debtors, creditors) != []
  {
  }

  lemma NotBoth(rows: seq<Row>, payer: string, payee: string)
    requires NoDup(Players(rows)) && payer in Players(Debtors(rows)) && payee in Players(Creditors(rows))
    ensures payer != payee
  {
    var i :| 0 <= i < |Debtors(rows)| && Debtors(rows)[i].player == payer;
    var j :| 0 <= j < |Creditors(rows)| && Creditors(rows)[j].player == payee;
    var a, b := Row(payer, -Debtors(rows)[i].amount), Creditors(rows)[j];
    assert a in rows && b in rows;
    var k :| 0 <= k < |rows| && rows[k] == a;
    var l :| 0 <= l < |rows| && rows[l] == b;
    assert Players(rows)[k] == payer && Players(rows)[l] == payee;
  }
}
