/** What a merchant owes on its cycles against what its entries have left to collect. The two agree
    only as long as every transaction meets a condition that can be read off before it. */
module MerchantDebt {
  import opened Sums
  import opened Books
  import opened BooksInvariant
  import opened CycleWorkflow
  import opened Settlements
  import opened BillingRuns

  /** What the merchant's entries have left to collect. */
  function Uncollected(entries: map<Id, Entry>, m: Id): map<Id, int> {
    map i | i in entries && entries[i].merchant == m :: RemainingOf(entries[i])
  }

  /** Total outstanding less total uncollected. */
  ghost function Drift(b: Books, m: Id): int {
    Total(OutstandingOf(b.cycles, m)) - Total(Uncollected(b.entries, m))
  }

  // ---- what each transaction does to it -----------------------------------------------------

  /** What the entry's cycle still owes; nothing without a cycle. */
  function BalanceOf(b: Books, e: Entry): int {
    if e.cycle.Some? && e.cycle.value in b.cycles then b.cycles[e.cycle.value].outstanding else 0
  }

  /** Applying a sum collects this much more. */
  function NewlyCollected(b: Books, i: Id, received: int): int
    requires i in b.entries
  {
    Collect(b.entries[i], received).collected - b.entries[i].collected
  }

  /** The part of a collection that its cycle's balance is too small to take. */
  function Stranded(b: Books, i: Id, received: int, m: Id): int {
    if i in b.entries && b.entries[i].merchant == m
    then Max(0, NewlyCollected(b, i, received) - BalanceOf(b, b.entries[i])) else 0
  }

  /** The receipts of an invoice once this one is among them. */
  ghost function ReceivedWith(b: Books, i: Id, txid: string, units: int): int {
    Received(InsertReceipt(b, i, Chain(txid), units).receipts, i)
  }

  ghost function DriftChange(b: Books, s: Step, m: Id): int {
    match s
    case Charge(i, n, fee, _) => if n == m && i !in b.entries && OpenCycle(b.cycles, n).None? then -(fee as int) else 0
    case Receive(i, txid, units) => if 0 < units then Stranded(b, i, ReceivedWith(b, i, txid, units), m) else 0
    case Apply(i, received) => Stranded(b, i, received, m)
    case Clear(c, _) =>
      if Settleable(b, c) && b.cycles[c].merchant == m
      then Min(Budget(b, c), Total(OwedTo(b, c))) - b.cycles[c].outstanding else 0
    case _ => 0
  }

  /** The conditions, by transaction: a fee is charged to an open cycle; a collection is at most its
      cycle's balance; a settlement hands out exactly the balance it wipes out. */
  ghost predicate KeepsLaw(b: Books, s: Step, m: Id) {
    match s
    case Charge(i, n, fee, _) => n != m || fee == 0 || i in b.entries || OpenCycle(b.cycles, n).Some?
    case Receive(i, txid, units) =>
      units <= 0 || i !in b.entries || b.entries[i].merchant != m
      || NewlyCollected(b, i, ReceivedWith(b, i, txid, units)) <= BalanceOf(b, b.entries[i])
    case Apply(i, received) =>
      i !in b.entries || b.entries[i].merchant != m || NewlyCollected(b, i, received) <= BalanceOf(b, b.entries[i])
    case Clear(c, _) =>
      !Settleable(b, c) || b.cycles[c].merchant != m
      || Min(Budget(b, c), Total(OwedTo(b, c))) == b.cycles[c].outstanding
    case _ => true
  }

  lemma KeepsLawIff(b: Books, s: Step, m: Id)
    ensures KeepsLaw(b, s, m) <==> DriftChange(b, s, m) == 0
  {
  }

  // ---- single writes ------------------------------------------------------------------------

  lemma OutstandingWrite(cycles: map<Id, Cycle>, c: Id, r: Cycle, m: Id)
    requires c in cycles && r.merchant == cycles[c].merchant
    ensures Total(OutstandingOf(cycles[c := r], m))
         == Total(OutstandingOf(cycles, m)) + (if r.merchant == m then r.outstanding - cycles[c].outstanding else 0)
  {
    if r.merchant == m {
      assert OutstandingOf(cycles[c := r], m) == OutstandingOf(cycles, m)[c := r.outstanding];
      TotalWrite(OutstandingOf(cycles, m), c, r.outstanding);
    } else {
      assert OutstandingOf(cycles[c := r], m) == OutstandingOf(cycles, m);
    }
  }

  lemma UncollectedWrite(entries: map<Id, Entry>, i: Id, e: Entry, m: Id)
    requires i in entries ==> entries[i].merchant == e.merchant
    ensures Total(Uncollected(entries[i := e], m))
         == Total(Uncollected(entries, m)) + (if e.merchant == m then RemainingOf(e) - At(Uncollected(entries, m), i) else 0)
  {
    if e.merchant == m {
      assert Uncollected(entries[i := e], m) == Uncollected(entries, m)[i := RemainingOf(e)];
      TotalWrite(Uncollected(entries, m), i, RemainingOf(e));
    } else {
      assert Uncollected(entries[i := e], m) == Uncollected(entries, m);
    }
  }

  // ---- one transaction at a time ------------------------------------------------------------

  lemma ChargeDrift(b: Books, i: Id, n: Id, fee: nat, now: int, m: Id)
    ensures Drift(InsertEntry(b, i, n, fee, now), m)
         == Drift(b, m) - (if n == m && i !in b.entries && OpenCycle(b.cycles, n).None? then fee else 0)
  {
    if i !in b.entries {
      var open := OpenCycle(b.cycles, n);
      UncollectedWrite(b.entries, i, Entry(n, fee, 0, false, open, now), m);
      if open.Some? {
        var r := b.cycles[open.value];
        OutstandingWrite(b.cycles, open.value, r.(total := r.total + fee, outstanding := r.outstanding + fee), m);
      }
    }
  }

  lemma ApplyDrift(b: Books, i: Id, received: int, m: Id)
    requires Inv(b)
    ensures Drift(ApplyCollected(b, i, received), m) == Drift(b, m) + Stranded(b, i, received, m)
  {
    if i in b.entries {
      assert EntryOk(b, i) && Attached(b, i);
      var e := Collect(b.entries[i], received);
      UncollectedWrite(b.entries, i, e, m);
      if e.cycle.Some? {
        var c, delta := e.cycle.value, NewlyCollected(b, i, received);
        assert CycleOk(b, c);
        var r := b.cycles[c];
        OutstandingWrite(b.cycles, c, r.(auto := r.auto + delta, outstanding := Max(0, r.outstanding - delta)), m);
      }
    }
  }

  lemma ReceiveDrift(b: Books, i: Id, txid: string, units: int, m: Id)
    requires Inv(b)
    ensures Drift(RecordReceipt(b, i, txid, units), m) == Drift(b, m) + DriftChange(b, Receive(i, txid, units), m)
  {
    if 0 < units {
      var b' := InsertReceipt(b, i, Chain(txid), units);
      InsertReceiptKeeps(b, i, txid, units);
      ApplyDrift(b', i, Received(b'.receipts, i), m);
    }
  }

  lemma {:induction false} PayoutDrift(b: Books, rows: seq<Row>, budget: int, bill: Id, n: Id, m: Id)
    requires Payable(b, rows) && 0 <= budget
    requires forall j :: 0 <= j < |rows| ==> b.entries[rows[j].invoice].merchant == n
    ensures Total(Uncollected(Payout(b, rows, budget, bill).entries, m))
         == Total(Uncollected(b.entries, m)) - (if n == m then Min(budget, Prefix(rows, |rows|)) else 0)
    decreases |rows|
  {
    if rows == [] || budget == 0 {
      PrefixGrows(b, rows, 0, |rows|);
    } else {
      var i, units := rows[0].invoice, Min(rows[0].remaining, budget);
      var b' := PayRow(b, i, units, bill);
      PayRowPayable(b, rows, units, bill);
      UncollectedWrite(b.entries, i, b'.entries[i], m);
      PrefixTaken(b, rows, budget);
      PayoutDrift(b', rows[1..], budget - units, bill, n, m);
    }
  }

  lemma ClearDrift(b: Books, c: Id, rows: seq<Row>, m: Id)
    requires Inv(b) && c in b.cycles && EligibleRows(b, c, rows)
    ensures Drift(Settle(b, c, rows), m) == Drift(b, m) + DriftChange(b, Clear(c, rows), m)
  {
    SettleCycles(b, c, rows);
    if Settleable(b, c) {
      RowsPayable(b, c, rows);
      RowsAreOwed(b, c, rows);
      PayoutDrift(Claim(b, c), rows, Budget(b, c), b.cycles[c].bill.value, b.cycles[c].merchant, m);
      OutstandingWrite(b.cycles, c, b.cycles[c].(status := Paid, outstanding := 0), m);
    }
  }

  /** A row whose merchant and debt stay the same moves nothing. */
  predicate SameDebtRows(b: Books, b': Books) {
    && b'.entries == b.entries && b'.cycles.Keys == b.cycles.Keys
    && forall c :: c in b.cycles ==>
      b'.cycles[c].merchant == b.cycles[c].merchant && b'.cycles[c].outstanding == b.cycles[c].outstanding
  }

  lemma SameDebtRowsKeep(b: Books, b': Books, m: Id)
    requires SameDebtRows(b, b')
    ensures Drift(b', m) == Drift(b, m)
  {
    assert OutstandingOf(b'.cycles, m) == OutstandingOf(b.cycles, m);
  }

  lemma CloseMovesNoDebt(b: Books, c: Id, bill: Id, now: int, begun: int, stamp: int)
    ensures SameDebtRows(b, CloseCycle(b, c, bill, now, begun, stamp))
  {
  }

  lemma RequestMovesNoDebt(b: Books, c: Id, bill: Id, stamp: int, later: int)
    ensures SameDebtRows(b, RequestSettlement(b, c, bill, stamp, later))
  {
  }

  lemma OverdueMovesNoDebt(b: Books, c: Id, now: int)
    ensures SameDebtRows(b, Overdue(b, c, now))
  {
  }

  lemma SuspendMovesNoDebt(b: Books, c: Id, now: int)
    ensures SameDebtRows(b, Suspend(b, c, now))
  {
  }

  /** Each transaction moves the drift by exactly its change. */
  lemma NextDrift(b: Books, s: Step, config: Config, m: Id)
    requires Inv(b) && Enabled(b, s)
    ensures Drift(Next(b, s, config), m) == Drift(b, m) + DriftChange(b, s, m)
  {
    match s
    case Charge(i, n, fee, now) => ChargeDrift(b, i, n, fee, now, m);
    case Receive(i, txid, units) => ReceiveDrift(b, i, txid, units, m);
    case Apply(i, received) => ApplyDrift(b, i, received, m);
    case OpenNew(n, c, now) => CarryOverConserves(b, n, c, now, config, m);
    case Clear(c, rows) => ClearDrift(b, c, rows, m);
    case Close(c, bill, now, begun, stamp) =>
      CloseMovesNoDebt(b, c, bill, now, begun, stamp);
      SameDebtRowsKeep(b, CloseCycle(b, c, bill, now, begun, stamp), m);
    case Request(c, bill, stamp, later) =>
      RequestMovesNoDebt(b, c, bill, stamp, later);
      SameDebtRowsKeep(b, RequestSettlement(b, c, bill, stamp, later), m);
    case MarkOverdue(c, now) =>
      OverdueMovesNoDebt(b, c, now);
      SameDebtRowsKeep(b, Overdue(b, c, now), m);
    case MarkSuspended(c, now) =>
      SuspendMovesNoDebt(b, c, now);
      SameDebtRowsKeep(b, Suspend(b, c, now), m);
    case _ =>
  }

  // ---- runs ---------------------------------------------------------------------------------

  ghost function DriftOver(states: seq<Books>, steps: seq<Step>, m: Id, k: nat): int
    requires k <= |steps| && |states| == |steps| + 1
  {
    if k == 0 then 0 else DriftOver(states, steps, m, k - 1) + DriftChange(states[k - 1], steps[k - 1], m)
  }

  /** In every reachable state the gap between what a merchant owes and what its entries have left is
      the sum of the changes along the run. */
  lemma {:induction false} DriftIsSum(states: seq<Books>, steps: seq<Step>, config: Config, m: Id, k: nat)
    requires IsRun(states, steps, config) && Initial(states[0]) && k < |states|
    ensures Drift(states[k], m) == DriftOver(states, steps, m, k)
  {
    if k == 0 {
      assert OutstandingOf(states[0].cycles, m) == map[] && Uncollected(states[0].entries, m) == map[];
    } else {
      DriftIsSum(states, steps, config, m, k - 1);
      RunKeeps(states, steps, config, k - 1);
      assert Stepped(states, steps, config, k - 1);
      NextDrift(states[k - 1], steps[k - 1], config, m);
    }
  }

  ghost predicate LawHolds(states: seq<Books>, m: Id) {
    forall b <- states :: Drift(b, m) == 0
  }

  ghost predicate AllKeepLaw(states: seq<Books>, steps: seq<Step>, m: Id)
    requires |states| == |steps| + 1
  {
    forall k: nat | k < |steps| :: KeepsLaw(states[k], steps[k], m)
  }

  lemma {:induction false} KeptLawSums(states: seq<Books>, steps: seq<Step>, m: Id, k: nat)
    requires |states| == |steps| + 1 && k <= |steps| && AllKeepLaw(states, steps, m)
    ensures DriftOver(states, steps, m, k) == 0
  {
    if k > 0 {
      KeptLawSums(states, steps, m, k - 1);
      KeepsLawIff(states[k - 1], steps[k - 1], m);
    }
  }

  /** "A merchant's outstanding equals what its entries have left" holds throughout a run if and only if
      every transaction of the run met its condition. */
  lemma LawHoldsIff(states: seq<Books>, steps: seq<Step>, config: Config, m: Id)
    requires IsRun(states, steps, config) && Initial(states[0])
    ensures LawHolds(states, m) <==> AllKeepLaw(states, steps, m)
  {
    if AllKeepLaw(states, steps, m) {
      forall k: nat | k < |states| ensures Drift(states[k], m) == 0 {
        DriftIsSum(states, steps, config, m, k);
        KeptLawSums(states, steps, m, k);
      }
    }
    if LawHolds(states, m) {
      forall k: nat | k < |steps| ensures KeepsLaw(states[k], steps[k], m) {
        DriftIsSum(states, steps, config, m, k);
        DriftIsSum(states, steps, config, m, k + 1);
        assert states[k] in states && states[k + 1] in states;
        KeepsLawIff(states[k], steps[k], m);
      }
    }
  }

  // ---- fees no cycle ever bills -------------------------------------------------------------

  /** The entry stands in some cycle's column of fees. */
  ghost predicate OnSomeCycle(b: Books, i: Id) {
    exists c <- b.cycles :: i in Column(b.entries, c, FeeOf)
  }

  /** Whether a fee is ever on a cycle is decided when it is charged: by whether its merchant has an open
      cycle at that moment. */
  lemma OnACycleIff(states: seq<Books>, steps: seq<Step>, config: Config, j: nat, k: nat)
    requires IsRun(states, steps, config) && Initial(states[0]) && j < k < |states|
    requires steps[j].Charge? && steps[j].invoice !in states[j].entries
    ensures var i, open := steps[j].invoice, OpenCycle(states[j].cycles, steps[j].merchant);
      && i in states[k].entries && states[k].entries[i].cycle == open
      && (OnSomeCycle(states[k], i) <==> open.Some?)
  {
    var i := steps[j].invoice;
    assert Stepped(states, steps, config, j);
    CollectedNeverFalls(states, steps, config, j + 1, k, i);
    RunKeeps(states, steps, config, k);
    var b := states[k];
    assert Attached(b, i);
    if b.entries[i].cycle.Some? {
      assert i in Column(b.entries, b.entries[i].cycle.value, FeeOf);
    }
  }

  lemma ChargesNoCycle()
    ensures InsertEntry(Shop(map[], map[], map[]), 0, 0, 1, 0) == Shop(map[0 := Entry(0, 1, 0, false, None, 0)], map[], map[])
  {
  }

  lemma OneIsUncollected()
    ensures var entries: map<Id, Entry> := map[0 := Entry(0, 1, 0, false, None, 0)];
      Total(Uncollected(entries, 0)) == 1
  {
    var none: map<Id, int> := map[];
    var entries: map<Id, Entry> := map[0 := Entry(0, 1, 0, false, None, 0)];
    assert Uncollected(entries, 0) == none[0 := 1];
    TotalWrite(none, 0, 1);
  }

  /** One charge without an open cycle: the merchant owes 0 while 1 is uncollected, and nothing will bill it. */
  lemma UnbilledCharge(config: Config) returns (states: seq<Books>, steps: seq<Step>)
    ensures IsRun(states, steps, config) && Initial(states[0])
    ensures var b := states[|steps|];
      Total(OutstandingOf(b.cycles, 0)) == 0 && Total(Uncollected(b.entries, 0)) == 1 && !OnSomeCycle(b, 0)
  {
    states, steps := [Shop(map[], map[], map[])], [];
    states, steps := Extended(states, steps, config, Charge(0, 0, 1, 0));
    ChargesNoCycle();
    OneIsUncollected();
    assert OutstandingOf(states[|steps|].cycles, 0) == map[];
  }
}
