/** Paying a settlement invoice out to the ledger entries it covers. */
module Settlements {
  import opened Sums
  import opened Books
  import opened BooksInvariant
  import opened CycleWorkflow

  /** What the first `k` rows ask for. */
  function Prefix(rows: seq<Row>, k: nat): int
    requires k <= |rows|
  {
    if k == 0 then 0 else Prefix(rows, k - 1) + rows[k - 1].remaining
  }

  /** Row `k`'s share in closed form: what is left after every older row is served, at most its own debt. */
  function Share(rows: seq<Row>, budget: int, k: nat): int
    requires k < |rows|
  {
    Max(0, Min(rows[k].remaining, budget - Prefix(rows, k)))
  }

  predicate Payable(b: Books, rows: seq<Row>) {
    && (forall j :: 0 <= j < |rows| ==>
      && rows[j].invoice in b.entries && 0 < rows[j].remaining
      && rows[j].remaining == RemainingOf(b.entries[rows[j].invoice]))
    && (forall j, k :: 0 <= j < k < |rows| ==> rows[j].invoice != rows[k].invoice)
  }

  lemma {:induction false} PrefixTail(rows: seq<Row>, k: nat)
    requires 0 < k <= |rows|
    ensures Prefix(rows, k) == rows[0].remaining + Prefix(rows[1..], k - 1)
  {
    if k > 1 {
      PrefixTail(rows, k - 1);
    }
  }

  lemma {:induction false} PrefixGrows(b: Books, rows: seq<Row>, j: nat, k: nat)
    requires Payable(b, rows) && j <= k <= |rows|
    ensures 0 <= Prefix(rows, j) && Prefix(rows, j) + (k - j) <= Prefix(rows, k)
    decreases k
  {
    if j < k {
      PrefixGrows(b, rows, j, k - 1);
    } else if k > 0 {
      PrefixGrows(b, rows, k - 1, k - 1);
    }
  }

  lemma ShareTail(b: Books, rows: seq<Row>, budget: int, k: nat)
    requires Payable(b, rows) && 0 < k < |rows| && 0 < budget
    ensures Share(rows, budget, k) == Share(rows[1..], budget - Min(rows[0].remaining, budget), k - 1)
  {
    PrefixTail(rows, k);
    PrefixGrows(b, rows, 1, k);
  }

  lemma PayRowPayable(b: Books, rows: seq<Row>, units: int, bill: Id)
    requires Payable(b, rows) && rows != []
    ensures Payable(PayRow(b, rows[0].invoice, units, bill), rows[1..])
  {
    var b' := PayRow(b, rows[0].invoice, units, bill);
    forall j | 0 <= j < |rows[1..]|
      ensures rows[1..][j].invoice in b'.entries && 0 < rows[1..][j].remaining
      ensures rows[1..][j].remaining == RemainingOf(b'.entries[rows[1..][j].invoice])
    {
      assert rows[1..][j] == rows[j + 1];
    }
  }

  predicate RowPaid(b: Books, rows: seq<Row>, budget: int, paid: Books, j: nat) {
    j < |rows| && rows[j].invoice in b.entries ==>
      && rows[j].invoice in paid.entries
      && var e := b.entries[rows[j].invoice];
      paid.entries[rows[j].invoice] == e.(collected := e.collected + Share(rows, budget, j))
  }

  predicate Listed(rows: seq<Row>, i: Id) {
    exists j :: 0 <= j < |rows| && rows[j].invoice == i
  }

  predicate Unlisted(b: Books, rows: seq<Row>, paid: Books, i: Id) {
    i in b.entries && !Listed(rows, i) ==> i in paid.entries && paid.entries[i] == b.entries[i]
  }

  predicate SameTables(b: Books, bill: Id, paid: Books) {
    && paid.cycles == b.cycles && paid.merchants == b.merchants && paid.bills == b.bills && paid.carried == b.carried
    && paid.entries.Keys == b.entries.Keys
    && (forall k :: k in b.receipts ==> k in paid.receipts)
    && (forall k :: k in paid.receipts && k !in b.receipts ==> k.1 == Settlement(bill))
  }

  /** `paid` is `b` after every row received its closed-form share and nothing else changed. */
  ghost predicate Shared(b: Books, rows: seq<Row>, budget: int, bill: Id, paid: Books) {
    && SameTables(b, bill, paid)
    && (forall j: nat {:trigger RowPaid(b, rows, budget, paid, j)} :: RowPaid(b, rows, budget, paid, j))
    && (forall i {:trigger Unlisted(b, rows, paid, i)} :: Unlisted(b, rows, paid, i))
  }

  /** The greedy loop computes exactly the closed-form shares. */
  lemma {:induction false} PayoutShares(b: Books, rows: seq<Row>, budget: int, bill: Id)
    requires Payable(b, rows) && 0 <= budget
    ensures Shared(b, rows, budget, bill, Payout(b, rows, budget, bill))
    decreases |rows|
  {
    if rows == [] || budget == 0 {
      forall j: nat
        ensures RowPaid(b, rows, budget, Payout(b, rows, budget, bill), j)
      {
        if j < |rows| {
          PrefixGrows(b, rows, 0, j);
        }
      }
    } else {
      var units := Min(rows[0].remaining, budget);
      var b' := PayRow(b, rows[0].invoice, units, bill);
      PayRowPayable(b, rows, units, bill);
      PayoutShares(b', rows[1..], budget - units, bill);
      var paid := Payout(b, rows, budget, bill);
      forall j: nat
        ensures RowPaid(b, rows, budget, paid, j)
      {
        RowPaidStep(b, rows, budget, bill, j);
      }
      forall i
        ensures Unlisted(b, rows, paid, i)
      {
        assert Unlisted(b', rows[1..], paid, i);
        ListedTail(rows, i);
      }
    }
  }

  lemma ListedTail(rows: seq<Row>, i: Id)
    requires rows != []
    ensures Listed(rows[1..], i) ==> Listed(rows, i)
  {
    if j :| 0 <= j < |rows[1..]| && rows[1..][j].invoice == i {
      assert rows[j + 1].invoice == i;
    }
  }

  lemma RowPaidStep(b: Books, rows: seq<Row>, budget: int, bill: Id, j: nat)
    requires Payable(b, rows) && rows != [] && 0 < budget
    requires var units := Min(rows[0].remaining, budget);
      var b' := PayRow(b, rows[0].invoice, units, bill);
      Shared(b', rows[1..], budget - units, bill, Payout(b, rows, budget, bill))
    ensures RowPaid(b, rows, budget, Payout(b, rows, budget, bill), j)
  {
    var units := Min(rows[0].remaining, budget);
    var b' := PayRow(b, rows[0].invoice, units, bill);
    var paid := Payout(b, rows, budget, bill);
    if j == 0 {
      assert forall k :: 0 <= k < |rows[1..]| ==> rows[1..][k].invoice != rows[0].invoice;
      assert Unlisted(b', rows[1..], paid, rows[0].invoice);
    } else if j < |rows| {
      ShareTail(b, rows, budget, j);
      assert RowPaid(b', rows[1..], budget - units, paid, j - 1);
      assert rows[1..][j - 1] == rows[j];
    }
  }

  // ---- what a settlement keeps --------------------------------------------------------------

  /** An entry outside the live cycles can be paid without touching their balances. */
  lemma PayRowBalance(b: Books, i: Id, units: int, bill: Id, d: Id)
    requires BalanceOk(b, d)
    requires i in b.entries && b.entries[i].cycle.Some? && b.entries[i].cycle.value in b.cycles
    requires !Live(b.cycles[b.entries[i].cycle.value].status)
    ensures BalanceOk(PayRow(b, i, units, bill), d)
  {
    var b' := PayRow(b, i, units, bill);
    if d in b.cycles && Live(b.cycles[d].status) {
      assert Column(b'.entries, d, FeeOf) == Column(b.entries, d, FeeOf);
      assert Column(b'.entries, d, CollectedOf) == Column(b.entries, d, CollectedOf);
    }
  }

  lemma PayRowEntry(b: Books, i: Id, units: int, bill: Id, j: Id)
    requires EntryOk(b, j) && Attached(b, j) && ReceiptsOk(b.receipts)
    requires i in b.entries && 0 < units <= RemainingOf(b.entries[i]) && (i, Settlement(bill)) !in b.receipts
    ensures EntryOk(PayRow(b, i, units, bill), j) && Attached(PayRow(b, i, units, bill), j)
  {
    ReceivedWrite(b.receipts, (i, Settlement(bill)), units, j);
  }

  lemma PayRowKeeps(b: Books, i: Id, units: int, bill: Id, c: Id)
    requires LedgerOk(b) && i in b.entries && 0 < units <= RemainingOf(b.entries[i])
    requires (i, Settlement(bill)) !in b.receipts && PaidWith(b, c, bill)
    requires b.entries[i].cycle.Some? && b.entries[i].cycle.value in b.cycles
    requires !Live(b.cycles[b.entries[i].cycle.value].status)
    ensures LedgerOk(PayRow(b, i, units, bill))
  {
    var b' := PayRow(b, i, units, bill);
    forall j
      ensures EntryOk(b', j) && Attached(b', j)
    {
      assert EntryOk(b, j) && Attached(b, j);
      PayRowEntry(b, i, units, bill, j);
    }
    forall d
      ensures BalanceOk(b', d) && CycleOk(b', d) && BillOk(b', d)
    {
      assert BalanceOk(b, d) && CycleOk(b, d) && BillOk(b, d);
      PayRowBalance(b, i, units, bill, d);
    }
    assert forall d, s :: PaidWith(b, d, s) ==> PaidWith(b', d, s);
  }

  ghost predicate Fresh(b: Books, rows: seq<Row>, bill: Id) {
    forall r <- rows ::
      && (r.invoice, Settlement(bill)) !in b.receipts
      && r.invoice in b.entries
      && b.entries[r.invoice].cycle.Some? && b.entries[r.invoice].cycle.value in b.cycles
      && !Live(b.cycles[b.entries[r.invoice].cycle.value].status)
  }

  lemma {:induction false} PayoutKeeps(b: Books, rows: seq<Row>, budget: int, bill: Id, c: Id)
    requires LedgerOk(b) && Payable(b, rows) && Fresh(b, rows, bill) && PaidWith(b, c, bill) && 0 <= budget
    ensures LedgerOk(Payout(b, rows, budget, bill))
    decreases |rows|
  {
    if rows != [] && 0 < budget {
      var units := Min(rows[0].remaining, budget);
      var b' := PayRow(b, rows[0].invoice, units, bill);
      assert rows[0] in rows;
      PayRowKeeps(b, rows[0].invoice, units, bill, c);
      PayRowPayable(b, rows, units, bill);
      forall r | r in rows[1..]
        ensures r in rows && r.invoice != rows[0].invoice
      {
      }
      PayoutKeeps(b', rows[1..], budget - units, bill, c);
    }
  }

  lemma ClaimKeeps(b: Books, c: Id)
    requires LedgerOk(b) && c in b.cycles && Billed(b.cycles[c].status)
    ensures LedgerOk(Claim(b, c))
  {
    var b' := Claim(b, c);
    forall d
      ensures BalanceOk(b', d) && CycleOk(b', d) && BillOk(b', d)
    {
      assert BalanceOk(b, d) && CycleOk(b, d) && BillOk(b, d);
    }
    forall i
      ensures EntryOk(b', i) && Attached(b', i)
    {
      assert EntryOk(b, i) && Attached(b, i);
    }
    assert forall m, d :: IsOpenFor(b'.cycles, m, d) ==> IsOpenFor(b.cycles, m, d);
    assert forall d, bill :: BilledBy(b'.cycles, d, bill) ==> BilledBy(b.cycles, d, bill);
    assert forall d, bill :: PaidWith(b, d, bill) ==> PaidWith(b', d, bill);
  }

  /** The settlement invoice of a cycle not yet paid has handed out nothing before. */
  lemma BillUnused(b: Books, c: Id, i: Id)
    requires LedgerOk(b) && c in b.cycles && Billed(b.cycles[c].status) && b.cycles[c].bill.Some?
    ensures (i, Settlement(b.cycles[c].bill.value)) !in b.receipts
  {
    var k := (i, Settlement(b.cycles[c].bill.value));
    if k in b.receipts {
      var d :| PaidWith(b, d, k.1.bill);
      assert BilledBy(b.cycles, c, k.1.bill) && BilledBy(b.cycles, d, k.1.bill);
      assert false;
    }
  }

  lemma RowsPayable(b: Books, c: Id, rows: seq<Row>)
    requires LedgerOk(b) && Settleable(b, c) && EligibleRows(b, c, rows)
    ensures Payable(Claim(b, c), rows) && Fresh(Claim(b, c), rows, b.cycles[c].bill.value)
    ensures Budget(b, c) == b.bills[b.cycles[c].bill.value].price && b.cycles[c].outstanding <= Budget(b, c) && 0 <= Budget(b, c)
  {
    assert BillOk(b, c) && CycleOk(b, c);
    forall j, k | 0 <= j < k < |rows|
      ensures rows[j].invoice != rows[k].invoice
    {
      assert Before(b.entries, rows[j].invoice, rows[k].invoice);
    }
    forall r | r in rows
      ensures (r.invoice, Settlement(b.cycles[c].bill.value)) !in b.receipts && Eligible(b, c, r.invoice)
    {
      BillUnused(b, c, r.invoice);
      var k :| 0 <= k < |rows| && rows[k] == r;
    }
  }

  lemma SettleKeeps(b: Books, c: Id, rows: seq<Row>)
    requires Inv(b) && c in b.cycles && EligibleRows(b, c, rows)
    ensures Inv(Settle(b, c, rows))
  {
    if Settleable(b, c) {
      var bill, m := b.cycles[c].bill.value, b.cycles[c].merchant;
      RowsPayable(b, c, rows);
      ClaimKeeps(b, c);
      assert PaidWith(Claim(b, c), c, bill);
      PayoutKeeps(Claim(b, c), rows, Budget(b, c), bill, c);
      PayoutShares(Claim(b, c), rows, Budget(b, c), bill);
      var paid := Payout(Claim(b, c), rows, Budget(b, c), bill);
      assert forall n, d :: n != m && LateCycleOf(b, n, d) ==> LateCycleOf(paid, n, d);
      SetStandingKeeps(paid, m, Active);
    }
  }

  // ---- how much a settlement pays, and to whom ----------------------------------------------

  function AllCollected(entries: map<Id, Entry>): map<Id, int> {
    map i | i in entries :: entries[i].collected
  }

  /** What the eligible entries of a cycle still owe, row by row of the ledger. */
  ghost function OwedTo(b: Books, c: Id): map<Id, int>
    requires c in b.cycles
  {
    map i | i in b.entries && Eligible(b, c, i) :: RemainingOf(b.entries[i])
  }

  /** The part of that debt standing in cycles carried over earlier. */
  ghost function OwedBefore(b: Books, c: Id): map<Id, int>
    requires c in b.cycles
  {
    map i | i in b.entries && Eligible(b, c, i) && b.entries[i].cycle != Some(c) :: RemainingOf(b.entries[i])
  }

  lemma PayRowTotal(b: Books, i: Id, units: int, bill: Id)
    requires i in b.entries
    ensures Total(AllCollected(PayRow(b, i, units, bill).entries)) == Total(AllCollected(b.entries)) + units
  {
    var collected := b.entries[i].collected + units;
    assert AllCollected(PayRow(b, i, units, bill).entries) == AllCollected(b.entries)[i := collected];
    TotalWrite(AllCollected(b.entries), i, collected);
  }

  /** What the first row takes and what the others then get make the whole. */
  lemma PrefixTaken(b: Books, rows: seq<Row>, budget: int)
    requires Payable(b, rows) && rows != [] && 0 < budget
    ensures var units := Min(rows[0].remaining, budget);
      0 < units && units + Min(budget - units, Prefix(rows[1..], |rows| - 1)) == Min(budget, Prefix(rows, |rows|))
  {
    PrefixTail(rows, |rows|);
    PrefixGrows(b, rows, 1, |rows|);
  }

  lemma {:induction false} PayoutTotal(b: Books, rows: seq<Row>, budget: int, bill: Id)
    requires Payable(b, rows) && 0 <= budget
    ensures Total(AllCollected(Payout(b, rows, budget, bill).entries))
         == Total(AllCollected(b.entries)) + Min(budget, Prefix(rows, |rows|))
    decreases |rows|
  {
    PrefixGrows(b, rows, 0, |rows|);
    if rows != [] && 0 < budget {
      var units := Min(rows[0].remaining, budget);
      var b' := PayRow(b, rows[0].invoice, units, bill);
      PayRowPayable(b, rows, units, bill);
      PayoutTotal(b', rows[1..], budget - units, bill);
      PrefixTaken(b, rows, budget);
      PayRowTotal(b, rows[0].invoice, units, bill);
    }
  }

  lemma {:induction false} PrefixFront(rows: seq<Row>, k: nat)
    requires k < |rows|
    ensures Prefix(rows[..|rows| - 1], k) == Prefix(rows, k)
  {
    if k > 0 {
      PrefixFront(rows, k - 1);
    }
  }

  lemma {:induction false} PrefixIsTotal(rows: seq<Row>, owed: map<Id, int>)
    requires forall j, k :: 0 <= j < k < |rows| ==> rows[j].invoice != rows[k].invoice
    requires forall j :: 0 <= j < |rows| ==> rows[j].invoice in owed && owed[rows[j].invoice] == rows[j].remaining
    requires forall i :: i in owed ==> Listed(rows, i)
    ensures Prefix(rows, |rows|) == Total(owed)
    decreases |rows|
  {
    if rows == [] {
      assert owed == map[];
    } else {
      var front, last := rows[..|rows| - 1], rows[|rows| - 1];
      forall i | i in owed - {last.invoice}
        ensures Listed(front, i)
      {
        var j :| 0 <= j < |rows| && rows[j].invoice == i;
        assert front[j].invoice == i;
      }
      PrefixIsTotal(front, owed - {last.invoice});
      PrefixFront(rows, |front|);
      TotalRemove(owed, last.invoice);
    }
  }

  lemma RowsAreOwed(b: Books, c: Id, rows: seq<Row>)
    requires LedgerOk(b) && Settleable(b, c) && EligibleRows(b, c, rows)
    ensures Prefix(rows, |rows|) == Total(OwedTo(b, c))
  {
    RowsPayable(b, c, rows);
    forall i | i in OwedTo(b, c)
      ensures Listed(rows, i)
    {
    }
    PrefixIsTotal(rows, OwedTo(b, c));
  }

  /** Own debt plus older debt is all the eligible debt. */
  lemma OwedSplits(b: Books, c: Id)
    requires LedgerOk(b) && c in b.cycles
    ensures Total(OwedTo(b, c)) == Total(Column(b.entries, c, RemainingOf)) + Total(OwedBefore(b, c))
  {
    var owed, own, before := OwedTo(b, c), Column(b.entries, c, RemainingOf), OwedBefore(b, c);
    var ownOwed := map i | i in owed && i !in before :: owed[i];
    forall i | i in own
      ensures own[i] == At(ownOwed, i)
    {
      assert EntryOk(b, i) && Attached(b, i);
    }
    TotalPadded(ownOwed, own);
    TotalSplit(owed, ownOwed, before);
  }

  /** A settlement hands out exactly the smaller of its budget and the eligible debt, the budget
      being the invoiced price: the ledger's collections rise by that much in total. */
  lemma SettlementIsExact(b: Books, c: Id, rows: seq<Row>)
    requires Inv(b) && Settleable(b, c) && EligibleRows(b, c, rows)
    ensures Budget(b, c) == b.bills[b.cycles[c].bill.value].price >= b.cycles[c].outstanding
    ensures Total(AllCollected(Settle(b, c, rows).entries))
         == Total(AllCollected(b.entries)) + Min(Budget(b, c), Total(OwedTo(b, c)))
  {
    RowsPayable(b, c, rows);
    PayoutTotal(Claim(b, c), rows, Budget(b, c), b.cycles[c].bill.value);
    RowsAreOwed(b, c, rows);
  }

  lemma SharesInOrder(b: Books, rows: seq<Row>, budget: int, j: nat, k: nat)
    requires Payable(b, rows) && j < k < |rows| && Share(rows, budget, k) > 0
    ensures Share(rows, budget, j) == rows[j].remaining
  {
    PrefixGrows(b, rows, j + 1, k);
  }

  /** Oldest first: an entry gets anything only if every older eligible entry is then fully
      collected, so at most one entry is left partly paid by the run. */
  lemma OldestFirst(b: Books, c: Id, rows: seq<Row>, j: nat, k: nat)
    requires Inv(b) && Settleable(b, c) && EligibleRows(b, c, rows) && j < k < |rows|
    ensures Settle(b, c, rows).entries.Keys == b.entries.Keys
    ensures Settle(b, c, rows).entries[rows[k].invoice].collected > b.entries[rows[k].invoice].collected
        ==> RemainingOf(Settle(b, c, rows).entries[rows[j].invoice]) == 0
  {
    RowsPayable(b, c, rows);
    var claimed, bill := Claim(b, c), b.cycles[c].bill.value;
    PayoutShares(claimed, rows, Budget(b, c), bill);
    var paid := Payout(claimed, rows, Budget(b, c), bill);
    assert RowPaid(claimed, rows, Budget(b, c), paid, j) && RowPaid(claimed, rows, Budget(b, c), paid, k);
    if Share(rows, Budget(b, c), k) > 0 {
      SharesInOrder(claimed, rows, Budget(b, c), j, k);
    }
  }

  ghost predicate AllCollectedFor(b: Books, c: Id, paid: Books)
    requires c in b.cycles
  {
    forall i :: i in b.entries && Eligible(b, c, i) ==> i in paid.entries && RemainingOf(paid.entries[i]) == 0
  }

  lemma PaidInFull(b: Books, rows: seq<Row>, budget: int, bill: Id, k: nat)
    requires Payable(b, rows) && 0 <= budget && k < |rows|
    requires Prefix(rows, |rows|) <= budget || k == |rows| - 1
    ensures var paid := Payout(b, rows, budget, bill);
      rows[k].invoice in paid.entries && (RemainingOf(paid.entries[rows[k].invoice]) == 0 <==> Prefix(rows, |rows|) <= budget)
  {
    PrefixGrows(b, rows, 0, k);
    PrefixGrows(b, rows, k + 1, |rows|);
    PayoutShares(b, rows, budget, bill);
    assert RowPaid(b, rows, budget, Payout(b, rows, budget, bill), k);
  }

  /** Every eligible entry ends fully collected exactly when the eligible debt fits in the
      invoiced price. Either way the cycle is paid for good: a second run finds nothing to settle. */
  lemma SettlementCompletes(b: Books, c: Id, rows: seq<Row>)
    requires Inv(b) && Settleable(b, c) && EligibleRows(b, c, rows)
    ensures !Settleable(Settle(b, c, rows), c)
    ensures AllCollectedFor(b, c, Settle(b, c, rows)) <==> Total(OwedTo(b, c)) <= Budget(b, c)
  {
    RowsPayable(b, c, rows);
    RowsAreOwed(b, c, rows);
    var claimed, bill := Claim(b, c), b.cycles[c].bill.value;
    var paid := Payout(claimed, rows, Budget(b, c), bill);
    PayoutShares(claimed, rows, Budget(b, c), bill);
    if Total(OwedTo(b, c)) <= Budget(b, c) {
      forall i | i in b.entries && Eligible(b, c, i)
        ensures i in paid.entries && RemainingOf(paid.entries[i]) == 0
      {
        var k :| 0 <= k < |rows| && rows[k].invoice == i;
        PaidInFull(claimed, rows, Budget(b, c), bill, k);
      }
    } else {
      PaidInFull(claimed, rows, Budget(b, c), bill, |rows| - 1);
      assert Eligible(b, c, rows[|rows| - 1].invoice);
    }
  }

  /** The price covers the eligible debt whenever the older debt fits in what the cycle carried in. */
  lemma CarriedDebtFits(b: Books, c: Id)
    requires Inv(b) && Settleable(b, c)
    ensures c in b.carried
    ensures Total(OwedBefore(b, c)) <= b.carried[c] ==> Total(OwedTo(b, c)) <= Budget(b, c)
  {
    assert BillOk(b, c);
    LiveBalance(b, c);
    OwedSplits(b, c);
  }

  /** Of the cycles, a settlement touches only the one it pays. */
  lemma SettleCycles(b: Books, c: Id, rows: seq<Row>)
    requires LedgerOk(b) && c in b.cycles && EligibleRows(b, c, rows)
    ensures Settle(b, c, rows).cycles == if Settleable(b, c) then Claim(b, c).cycles else b.cycles
  {
    if Settleable(b, c) {
      RowsPayable(b, c, rows);
      PayoutShares(Claim(b, c), rows, Budget(b, c), b.cycles[c].bill.value);
    }
  }

  // ---- collections and receipts stay in step -------------------------------------------------

  ghost predicate Exact(b: Books, i: Id) {
    i in b.entries ==> b.entries[i].collected == Min(b.entries[i].fee, Received(b.receipts, i))
  }

  lemma {:induction false} PayoutStaysExact(b: Books, rows: seq<Row>, budget: int, bill: Id, i: Id)
    requires Payable(b, rows) && Fresh(b, rows, bill) && 0 <= budget && Exact(b, i)
    ensures Exact(Payout(b, rows, budget, bill), i)
    decreases |rows|
  {
    if rows != [] && 0 < budget {
      var units := Min(rows[0].remaining, budget);
      assert rows[0] in rows;
      ReceivedWrite(b.receipts, (rows[0].invoice, Settlement(bill)), units, i);
      PayRowPayable(b, rows, units, bill);
      forall r | r in rows[1..]
        ensures r in rows && r.invoice != rows[0].invoice
      {
      }
      PayoutStaysExact(PayRow(b, rows[0].invoice, units, bill), rows[1..], budget - units, bill, i);
    }
  }

  lemma SettleStaysExact(b: Books, c: Id, rows: seq<Row>, i: Id)
    requires Inv(b) && c in b.cycles && EligibleRows(b, c, rows) && Exact(b, i)
    ensures Exact(Settle(b, c, rows), i)
  {
    if Settleable(b, c) {
      RowsPayable(b, c, rows);
      PayoutStaysExact(Claim(b, c), rows, Budget(b, c), b.cycles[c].bill.value, i);
    }
  }

  // ---- what a settlement pays one entry, and what it leaves alone ----------------------------

  ghost function ShareIn(rows: seq<Row>, budget: int, i: Id): int {
    if j: nat :| j < |rows| && rows[j].invoice == i then Share(rows, budget, j) else 0
  }

  /** What a settlement of cycle `c` will pay entry `i`. */
  ghost function ShareOf(b: Books, c: Id, rows: seq<Row>, i: Id): int {
    if Settleable(b, c) then ShareIn(rows, Budget(b, c), i) else 0
  }

  /** Every settlement payment is a receipt as well. */
  lemma {:induction false} PayoutReceived(b: Books, rows: seq<Row>, budget: int, bill: Id, i: Id)
    requires Payable(b, rows) && Fresh(b, rows, bill) && 0 <= budget
    ensures i in b.entries ==> i in Payout(b, rows, budget, bill).entries
    ensures Received(Payout(b, rows, budget, bill).receipts, i) - Received(b.receipts, i)
         == if i in b.entries then Payout(b, rows, budget, bill).entries[i].collected - b.entries[i].collected else 0
    decreases |rows|
  {
    if rows != [] && 0 < budget {
      var units := Min(rows[0].remaining, budget);
      assert rows[0] in rows;
      ReceivedWrite(b.receipts, (rows[0].invoice, Settlement(bill)), units, i);
      PayRowPayable(b, rows, units, bill);
      forall r | r in rows[1..]
        ensures r in rows && r.invoice != rows[0].invoice
      {
      }
      PayoutReceived(PayRow(b, rows[0].invoice, units, bill), rows[1..], budget - units, bill, i);
    }
  }

  lemma PayoutPays(b: Books, rows: seq<Row>, budget: int, bill: Id, i: Id)
    requires Payable(b, rows) && Fresh(b, rows, bill) && 0 <= budget
    ensures var paid, share := Payout(b, rows, budget, bill), ShareIn(rows, budget, i);
      && paid.entries.Keys == b.entries.Keys && 0 <= share
      && (i in b.entries ==> paid.entries[i] == b.entries[i].(collected := b.entries[i].collected + share))
      && Received(paid.receipts, i) == Received(b.receipts, i) + share
  {
    PayoutShares(b, rows, budget, bill);
    PayoutReceived(b, rows, budget, bill, i);
    var paid := Payout(b, rows, budget, bill);
    if j: nat :| j < |rows| && rows[j].invoice == i && ShareIn(rows, budget, i) == Share(rows, budget, j) {
      assert RowPaid(b, rows, budget, paid, j);
    } else {
      assert Unlisted(b, rows, paid, i);
    }
  }

  /** A settlement adds an entry's share to what it collected and to what it received, and changes
      nothing else of it. */
  lemma SettlePays(b: Books, c: Id, rows: seq<Row>, i: Id)
    requires Inv(b) && c in b.cycles && EligibleRows(b, c, rows)
    ensures var b', share := Settle(b, c, rows), ShareOf(b, c, rows, i);
      && b'.entries.Keys == b.entries.Keys && 0 <= share
      && (i in b.entries ==> b'.entries[i] == b.entries[i].(collected := b.entries[i].collected + share))
      && Received(b'.receipts, i) == Received(b.receipts, i) + share
  {
    if Settleable(b, c) {
      RowsPayable(b, c, rows);
      PayoutPays(Claim(b, c), rows, Budget(b, c), b.cycles[c].bill.value, i);
    }
  }

  /** No row to be paid belongs to cycle `d`. */
  predicate RowsOutside(b: Books, rows: seq<Row>, d: Id) {
    forall k :: 0 <= k < |rows| && rows[k].invoice in b.entries ==> b.entries[rows[k].invoice].cycle != Some(d)
  }

  lemma SettleSparesCycle(b: Books, c: Id, rows: seq<Row>, d: Id)
    requires Inv(b) && c in b.cycles && EligibleRows(b, c, rows) && d in b.cycles && RowsOutside(b, rows, d)
    ensures var b' := Settle(b, c, rows);
      && d in b'.cycles && b'.cycles[d].auto == b.cycles[d].auto
      && Column(b'.entries, d, CollectedOf) == Column(b.entries, d, CollectedOf)
  {
    SettleCycles(b, c, rows);
    if Settleable(b, c) {
      var claimed, bill := Claim(b, c), b.cycles[c].bill.value;
      var paid := Payout(claimed, rows, Budget(b, c), bill);
      RowsPayable(b, c, rows);
      PayoutShares(claimed, rows, Budget(b, c), bill);
      forall i | i in b.entries
        ensures paid.entries[i].cycle == b.entries[i].cycle
        ensures b.entries[i].cycle == Some(d) ==> paid.entries[i] == b.entries[i]
      {
        if j: nat :| j < |rows| && rows[j].invoice == i {
          assert RowPaid(claimed, rows, Budget(b, c), paid, j);
        } else {
          assert Unlisted(claimed, rows, paid, i);
        }
      }
    }
  }
}
