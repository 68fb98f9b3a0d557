/** What every transaction keeps: collections bounded by receipts, and exact balances of live
    billing cycles. */
module BooksInvariant {
  import opened Sums
  import opened Books

  ghost predicate EntryOk(b: Books, i: Id) {
    i in b.entries ==>
      && 0 <= b.entries[i].collected <= b.entries[i].fee
      && b.entries[i].collected <= Received(b.receipts, i)
      && (b.entries[i].auto ==> b.entries[i].collected == b.entries[i].fee)
  }

  ghost predicate EntriesOk(b: Books) {
    forall i {:trigger EntryOk(b, i)} :: EntryOk(b, i)
  }

  predicate Attached(b: Books, i: Id) {
    i in b.entries && b.entries[i].cycle.Some? ==>
      && b.entries[i].cycle.value in b.cycles
      && b.cycles[b.entries[i].cycle.value].merchant == b.entries[i].merchant
  }

  ghost predicate AttachedOk(b: Books) {
    forall i {:trigger Attached(b, i)} :: Attached(b, i)
  }

  predicate ReceiptsOk(receipts: map<(Id, Source), int>) {
    forall k :: k in receipts ==> 0 < receipts[k]
  }

  /** The balance law of one cycle, stated against the ledger entries themselves. */
  ghost predicate Balanced(entries: map<Id, Entry>, r: Cycle, carried: int, c: Id) {
    && r.outstanding == r.total - r.auto
    && r.total == carried + Total(Column(entries, c, FeeOf))
    && r.auto == Total(Column(entries, c, CollectedOf))
  }

  ghost predicate BalanceOk(b: Books, c: Id) {
    c in b.cycles && Live(b.cycles[c].status) ==> c in b.carried && Balanced(b.entries, b.cycles[c], b.carried[c], c)
  }

  ghost predicate BalancesOk(b: Books) {
    forall c {:trigger BalanceOk(b, c)} :: BalanceOk(b, c)
  }

  predicate CycleOk(b: Books, c: Id) {
    c in b.cycles ==>
      && c in b.carried && 0 <= b.carried[c]
      && 0 <= b.cycles[c].outstanding
      && b.cycles[c].merchant in b.merchants
  }

  ghost predicate CyclesOk(b: Books) {
    && (forall c {:trigger CycleOk(b, c)} :: CycleOk(b, c))
    && (forall m, c, d :: IsOpenFor(b.cycles, m, c) && IsOpenFor(b.cycles, m, d) ==> c == d)
  }

  predicate BillOk(b: Books, c: Id) {
    c in b.cycles ==>
      var r := b.cycles[c];
      && (r.status == Open ==> r.bill.None?)
      && (r.bill.Some? ==> r.bill.value in b.bills)
      && (Billed(r.status) ==>
        && r.bill.Some? && r.grace.Some?
        && r.outstanding <= b.bills[r.bill.value].price
        && r.grace.value >= b.bills[r.bill.value].begun + 7 * DAY
        && b.bills[r.bill.value].begun <= b.bills[r.bill.value].createdAt)
  }

  predicate BilledBy(cycles: map<Id, Cycle>, c: Id, bill: Id) {
    c in cycles && cycles[c].bill == Some(bill)
  }

  ghost predicate BillsOk(b: Books) {
    && (forall c {:trigger BillOk(b, c)} :: BillOk(b, c))
    && (forall bill, c, d :: BilledBy(b.cycles, c, bill) && BilledBy(b.cycles, d, bill) ==> c == d)
  }

  predicate PaidWith(b: Books, c: Id, bill: Id) {
    c in b.cycles && b.cycles[c].status == Paid && b.cycles[c].bill == Some(bill)
  }

  /** A settlement receipt exists only once the cycle billed by that invoice was paid. */
  ghost predicate SettlementReceiptsOk(b: Books) {
    forall k <- b.receipts.Keys :: k.1.Settlement? ==> exists c :: PaidWith(b, c, k.1.bill)
  }

  predicate LateCycleOf(b: Books, m: Id, c: Id) {
    c in b.cycles && b.cycles[c].merchant == m && (b.cycles[c].status == PastDue || b.cycles[c].status == Suspended)
  }

  ghost predicate StandingOk(b: Books) {
    forall m <- b.merchants.Keys :: b.merchants[m].standing != Active ==> exists c :: LateCycleOf(b, m, c)
  }

  /** Everything but the merchants' standing, which a settlement restores only at its end. */
  ghost predicate LedgerOk(b: Books) {
    && EntriesOk(b) && AttachedOk(b) && ReceiptsOk(b.receipts)
    && BalancesOk(b) && CyclesOk(b) && BillsOk(b) && SettlementReceiptsOk(b)
  }

  ghost predicate Inv(b: Books) {
    LedgerOk(b) && StandingOk(b)
  }

  // ---- columns and receipts under a single write -------------------------------------------

  function Part(entries: map<Id, Entry>, i: Id, c: Id, f: Entry -> int): int {
    if i in entries && entries[i].cycle == Some(c) then f(entries[i]) else 0
  }

  /** Writing one entry moves a cycle's column total by that entry's own change. */
  lemma ColumnWrite(entries: map<Id, Entry>, i: Id, e: Entry, c: Id, f: Entry -> int)
    ensures Total(Column(entries[i := e], c, f))
         == Total(Column(entries, c, f)) - Part(entries, i, c, f) + (if e.cycle == Some(c) then f(e) else 0)
  {
    var before, after := Column(entries, c, f), Column(entries[i := e], c, f);
    if e.cycle == Some(c) {
      assert after == before[i := f(e)];
      TotalWrite(before, i, f(e));
    } else {
      assert after == before - {i};
      if i in before {
        TotalRemove(before, i);
      } else {
        assert before - {i} == before;
      }
    }
  }

  lemma ReceivedWrite(receipts: map<(Id, Source), int>, k: (Id, Source), units: int, i: Id)
    requires k !in receipts
    ensures Received(receipts[k := units], i) == Received(receipts, i) + (if k.0 == i then units else 0)
  {
    if k.0 == i {
      assert ReceiptsOf(receipts[k := units], i) == ReceiptsOf(receipts, i)[k := units];
      TotalWrite(ReceiptsOf(receipts, i), k, units);
    } else {
      assert ReceiptsOf(receipts[k := units], i) == ReceiptsOf(receipts, i);
    }
  }

  /** Carried-in debt plus what each entry still owes: the live balance, never negative, so the
      clip at zero cannot bite on a live cycle. */
  lemma LiveBalance(b: Books, c: Id)
    requires EntriesOk(b) && BalancesOk(b) && CyclesOk(b) && c in b.cycles && Live(b.cycles[c].status)
    ensures c in b.carried && b.cycles[c].outstanding == b.carried[c] + Total(Column(b.entries, c, RemainingOf))
    ensures forall i :: i in b.entries && b.entries[i].cycle == Some(c) ==> RemainingOf(b.entries[i]) <= b.cycles[c].outstanding
  {
    var remaining := Column(b.entries, c, RemainingOf);
    assert BalanceOk(b, c) && CycleOk(b, c);
    TotalDifference(Column(b.entries, c, FeeOf), Column(b.entries, c, CollectedOf), remaining);
    forall i | i in b.entries && b.entries[i].cycle == Some(c)
      ensures RemainingOf(b.entries[i]) <= b.cycles[c].outstanding
    {
      forall j | j in remaining
        ensures 0 <= remaining[j]
      {
        assert EntryOk(b, j);
      }
      TotalAtLeastRow(remaining, i);
    }
  }

  // ---- preservation, one transaction at a time ----------------------------------------------

  /** The fields that decide a cycle's place in the workflow; ledger writes leave them alone. */
  predicate SameWorkflow(b: Books, b': Books) {
    && b'.cycles.Keys == b.cycles.Keys
    && b'.merchants == b.merchants && b'.bills == b.bills && b'.carried == b.carried
    && (forall c :: c in b.cycles ==>
      && b'.cycles[c].merchant == b.cycles[c].merchant && b'.cycles[c].status == b.cycles[c].status
      && b'.cycles[c].bill == b.cycles[c].bill && b'.cycles[c].grace == b.cycles[c].grace
      && 0 <= b'.cycles[c].outstanding
      && (Billed(b.cycles[c].status) ==> b'.cycles[c].outstanding <= b.cycles[c].outstanding))
    && (forall k :: k in b'.receipts && k.1.Settlement? ==> k in b.receipts)
  }

  lemma WorkflowFrame(b: Books, b': Books)
    requires CyclesOk(b) && BillsOk(b) && StandingOk(b) && SettlementReceiptsOk(b)
    requires SameWorkflow(b, b')
    ensures CyclesOk(b') && BillsOk(b') && StandingOk(b') && SettlementReceiptsOk(b')
  {
    forall c
      ensures CycleOk(b', c) && BillOk(b', c)
    {
      assert CycleOk(b, c) && BillOk(b, c);
    }
    assert forall m, c :: IsOpenFor(b'.cycles, m, c) ==> IsOpenFor(b.cycles, m, c);
    assert forall c, bill :: BilledBy(b'.cycles, c, bill) ==> BilledBy(b.cycles, c, bill);
    assert forall c, bill :: PaidWith(b, c, bill) ==> PaidWith(b', c, bill);
    assert forall n, c :: LateCycleOf(b, n, c) ==> LateCycleOf(b', n, c);
  }

  lemma InsertEntryBalance(b: Books, i: Id, m: Id, fee: nat, now: int, c: Id)
    requires BalanceOk(b, c) && i !in b.entries
    ensures BalanceOk(InsertEntry(b, i, m, fee, now), c)
  {
    var e := Entry(m, fee, 0, false, OpenCycle(b.cycles, m), now);
    ColumnWrite(b.entries, i, e, c, FeeOf);
    ColumnWrite(b.entries, i, e, c, CollectedOf);
  }

  lemma InsertEntryEntries(b: Books, i: Id, m: Id, fee: nat, now: int)
    requires EntriesOk(b) && AttachedOk(b) && ReceiptsOk(b.receipts) && i !in b.entries
    ensures EntriesOk(InsertEntry(b, i, m, fee, now))
    ensures AttachedOk(InsertEntry(b, i, m, fee, now))
  {
    TotalNonNegative(ReceiptsOf(b.receipts, i));
    var b' := InsertEntry(b, i, m, fee, now);
    forall j
      ensures EntryOk(b', j) && Attached(b', j)
    {
      assert EntryOk(b, j) && Attached(b, j);
    }
  }

  lemma InsertEntryKeeps(b: Books, i: Id, m: Id, fee: nat, now: int)
    requires Inv(b)
    ensures Inv(InsertEntry(b, i, m, fee, now))
  {
    if i !in b.entries {
      forall c
        ensures BalanceOk(InsertEntry(b, i, m, fee, now), c)
      {
        assert BalanceOk(b, c);
        InsertEntryBalance(b, i, m, fee, now, c);
      }
      InsertEntryEntries(b, i, m, fee, now);
      assert forall c :: c in b.cycles ==> CycleOk(b, c);
      WorkflowFrame(b, InsertEntry(b, i, m, fee, now));
    }
  }

  lemma InsertReceiptKeeps(b: Books, i: Id, txid: string, units: int)
    requires Inv(b)
    ensures Inv(InsertReceipt(b, i, Chain(txid), units))
    ensures forall j :: Received(b.receipts, j) <= Received(InsertReceipt(b, i, Chain(txid), units).receipts, j)
  {
    var b' := InsertReceipt(b, i, Chain(txid), units);
    if b' != b {
      forall j
        ensures Received(b.receipts, j) <= Received(b'.receipts, j)
        ensures EntryOk(b', j) && Attached(b', j)
      {
        ReceivedWrite(b.receipts, (i, Chain(txid)), units, j);
        assert EntryOk(b, j) && Attached(b, j);
      }
      forall c
        ensures BalanceOk(b', c)
      {
        assert BalanceOk(b, c);
      }
      assert forall c :: c in b.cycles ==> CycleOk(b, c);
      WorkflowFrame(b, b');
    }
  }

  lemma ApplyCollectedBalance(b: Books, i: Id, received: int, c: Id)
    requires EntriesOk(b) && BalancesOk(b) && CyclesOk(b) && i in b.entries
    ensures BalanceOk(ApplyCollected(b, i, received), c)
  {
    assert BalanceOk(b, c) && EntryOk(b, i);
    if c in b.cycles && Live(b.cycles[c].status) {
      LiveBalance(b, c);
      ColumnWrite(b.entries, i, Collect(b.entries[i], received), c, FeeOf);
      ColumnWrite(b.entries, i, Collect(b.entries[i], received), c, CollectedOf);
    }
  }

  lemma ApplyCollectedEntries(b: Books, i: Id, received: int)
    requires EntriesOk(b) && AttachedOk(b) && received <= Received(b.receipts, i)
    ensures EntriesOk(ApplyCollected(b, i, received))
    ensures AttachedOk(ApplyCollected(b, i, received))
  {
    var b' := ApplyCollected(b, i, received);
    forall j
      ensures EntryOk(b', j) && Attached(b', j)
    {
      assert EntryOk(b, j) && Attached(b, j);
    }
  }

  /** Applying any sum of receipts that was true at some earlier moment is safe. */
  lemma ApplyCollectedKeeps(b: Books, i: Id, received: int)
    requires Inv(b) && received <= Received(b.receipts, i)
    ensures Inv(ApplyCollected(b, i, received))
  {
    if i in b.entries {
      forall c
        ensures BalanceOk(ApplyCollected(b, i, received), c)
      {
        ApplyCollectedBalance(b, i, received, c);
      }
      ApplyCollectedEntries(b, i, received);
      assert EntryOk(b, i);
      assert forall c :: c in b.cycles ==> CycleOk(b, c);
      WorkflowFrame(b, ApplyCollected(b, i, received));
    }
  }
}
