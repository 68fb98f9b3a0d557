/** Whole runs of the billing system: any transactions, in any order, at any times. */
module BillingRuns {
  import opened Sums
  import opened Books
  import opened BooksInvariant
  import opened CycleWorkflow
  import opened Settlements

  /** One committed transaction. `Apply` carries the sum its caller read some time earlier. */
  datatype Step =
    | Charge(invoice: Id, merchant: Id, fee: nat, now: int)
    | Receive(invoice: Id, txid: string, units: int)
    | Note(invoice: Id, txid: string, units: int)
    | Apply(invoice: Id, received: int)
    | OpenNew(merchant: Id, cycle: Id, now: int)
    | Close(cycle: Id, bill: Id, now: int, begun: int, stamp: int)
    | Request(cycle: Id, bill: Id, stamp: int, later: int)
    | MarkOverdue(cycle: Id, now: int)
    | MarkSuspended(cycle: Id, now: int)
    | Pay(bill: Id, received: int, confirmed: bool)
    | Clear(cycle: Id, rows: seq<Row>)
    | ChangeTier(merchant: Id, tier: Tier)

  /** What a step may assume: a sum read earlier is no larger than today's, the rows of a settlement
      are its query's answer, and the clock does not go back within a transaction. */
  ghost predicate Enabled(b: Books, s: Step) {
    match s
    case Apply(i, received) => received <= Received(b.receipts, i)
    case Clear(c, rows) => c in b.cycles && EligibleRows(b, c, rows)
    case Close(_, _, now, begun, stamp) => now <= begun <= stamp
    case Request(_, _, stamp, later) => stamp <= later
    case _ => true
  }

  ghost function Next(b: Books, s: Step, config: Config): Books
    requires Enabled(b, s)
  {
    match s
    case Charge(i, m, fee, now) => InsertEntry(b, i, m, fee, now)
    case Receive(i, txid, units) => RecordReceipt(b, i, txid, units)
    case Note(i, txid, units) => InsertReceipt(b, i, Chain(txid), units)
    case Apply(i, received) => ApplyCollected(b, i, received)
    case OpenNew(m, c, now) => EnsureCycle(b, m, c, now, config)
    case Close(c, bill, now, begun, stamp) => CloseCycle(b, c, bill, now, begun, stamp)
    case Request(c, bill, stamp, later) => RequestSettlement(b, c, bill, stamp, later)
    case MarkOverdue(c, now) => Overdue(b, c, now)
    case MarkSuspended(c, now) => Suspend(b, c, now)
    case Pay(bill, received, confirmed) => BillPayment(b, bill, received, confirmed)
    case Clear(c, rows) => Settle(b, c, rows)
    case ChangeTier(m, tier) => Retier(b, m, tier)
  }

  ghost predicate Stepped(states: seq<Books>, steps: seq<Step>, config: Config, k: nat)
    requires |states| == |steps| + 1
  {
    k < |steps| ==> Enabled(states[k], steps[k]) && states[k + 1] == Next(states[k], steps[k], config)
  }

  ghost predicate IsRun(states: seq<Books>, steps: seq<Step>, config: Config) {
    |states| == |steps| + 1 && forall k: nat {:trigger Stepped(states, steps, config, k)} :: Stepped(states, steps, config, k)
  }

  /** A fresh database: merchants in good standing and nothing else. */
  ghost predicate Initial(b: Books) {
    && b.entries == map[] && b.receipts == map[] && b.cycles == map[] && b.bills == map[] && b.carried == map[]
    && forall m :: m in b.merchants ==> b.merchants[m].standing == Active
  }

  lemma NextKeeps(b: Books, s: Step, config: Config)
    requires Inv(b) && Enabled(b, s)
    ensures Inv(Next(b, s, config))
  {
    match s
    case Charge(i, m, fee, now) => InsertEntryKeeps(b, i, m, fee, now);
    case Receive(i, txid, units) =>
      InsertReceiptKeeps(b, i, txid, units);
      ApplyCollectedKeeps(InsertReceipt(b, i, Chain(txid), units), i, Received(InsertReceipt(b, i, Chain(txid), units).receipts, i));
    case Note(i, txid, units) => InsertReceiptKeeps(b, i, txid, units);
    case Apply(i, received) => ApplyCollectedKeeps(b, i, received);
    case OpenNew(m, c, now) => EnsureCycleKeeps(b, m, c, now, config);
    case Close(c, bill, now, begun, stamp) => CloseCycleKeeps(b, c, bill, now, begun, stamp);
    case Request(c, bill, stamp, later) => RequestSettlementKeeps(b, c, bill, stamp, later);
    case MarkOverdue(c, now) => OverdueKeeps(b, c, now);
    case MarkSuspended(c, now) => SuspendKeeps(b, c, now);
    case Pay(bill, received, confirmed) => BillPaymentKeeps(b, bill, received, confirmed);
    case Clear(c, rows) => SettleKeeps(b, c, rows);
    case ChangeTier(m, tier) => RetierKeeps(b, m, tier);
  }

  lemma InitialOk(b: Books)
    requires Initial(b)
    ensures Inv(b)
  {
  }

  lemma {:induction false} RunKeeps(states: seq<Books>, steps: seq<Step>, config: Config, k: nat)
    requires IsRun(states, steps, config) && Initial(states[0]) && k < |states|
    ensures Inv(states[k])
  {
    if k == 0 {
      InitialOk(states[0]);
    } else {
      RunKeeps(states, steps, config, k - 1);
      assert Stepped(states, steps, config, k - 1);
      NextKeeps(states[k - 1], steps[k - 1], config);
    }
  }

  /** What the invariant says in full: live cycles balance exactly, collections never exceed the fee or
      what really arrived, invoiced debt never exceeds its price, and a merchant held late or blocked has
      a cycle to show for it. */
  lemma RightBooks(b: Books)
    requires Inv(b)
    ensures forall c :: c in b.cycles && Live(b.cycles[c].status) ==>
      && c in b.carried
      && b.cycles[c].outstanding == b.cycles[c].total - b.cycles[c].auto
      && b.cycles[c].outstanding == b.carried[c] + Total(Column(b.entries, c, RemainingOf))
    ensures forall i :: i in b.entries ==>
      0 <= b.entries[i].collected <= b.entries[i].fee && b.entries[i].collected <= Received(b.receipts, i)
    ensures forall c :: c in b.cycles && Billed(b.cycles[c].status) ==>
      && b.cycles[c].bill.Some? && b.cycles[c].bill.value in b.bills
      && b.cycles[c].outstanding <= b.bills[b.cycles[c].bill.value].price
    ensures forall m :: m in b.merchants && b.merchants[m].standing != Active ==> exists c :: LateCycleOf(b, m, c)
  {
    forall c | c in b.cycles
      ensures Live(b.cycles[c].status) ==>
        && c in b.carried
        && b.cycles[c].outstanding == b.cycles[c].total - b.cycles[c].auto
        && b.cycles[c].outstanding == b.carried[c] + Total(Column(b.entries, c, RemainingOf))
      ensures BillOk(b, c)
    {
      assert BalanceOk(b, c) && BillOk(b, c);
      if Live(b.cycles[c].status) {
        LiveBalance(b, c);
      }
    }
    forall i | i in b.entries
      ensures EntryOk(b, i)
    {
    }
  }

  /** All of that, in every reachable state. */
  lemma ReachableBooks(states: seq<Books>, steps: seq<Step>, config: Config, k: nat)
    requires IsRun(states, steps, config) && Initial(states[0]) && k < |states|
    ensures forall c :: c in states[k].cycles && Live(states[k].cycles[c].status) ==>
      var r := states[k].cycles[c];
      && c in states[k].carried
      && r.outstanding == r.total - r.auto
      && r.outstanding == states[k].carried[c] + Total(Column(states[k].entries, c, RemainingOf))
    ensures forall i :: i in states[k].entries ==>
      var e := states[k].entries[i];
      0 <= e.collected <= e.fee && e.collected <= Received(states[k].receipts, i)
    ensures forall c :: c in states[k].cycles && Billed(states[k].cycles[c].status) ==>
      && states[k].cycles[c].bill.Some? && states[k].cycles[c].bill.value in states[k].bills
      && states[k].cycles[c].outstanding <= states[k].bills[states[k].cycles[c].bill.value].price
    ensures forall m :: m in states[k].merchants && states[k].merchants[m].standing != Active ==>
      exists c :: LateCycleOf(states[k], m, c)
  {
    RunKeeps(states, steps, config, k);
    RightBooks(states[k]);
  }

  // ---- what never goes back ------------------------------------------------------------------

  predicate Grew(b: Books, b': Books, i: Id) {
    i in b.entries ==>
      && i in b'.entries
      && b'.entries[i].fee == b.entries[i].fee && b'.entries[i].merchant == b.entries[i].merchant
      && b'.entries[i].cycle == b.entries[i].cycle
      && b.entries[i].collected <= b'.entries[i].collected
  }

  lemma NextGrows(b: Books, s: Step, config: Config, i: Id)
    requires Inv(b) && Enabled(b, s)
    ensures Grew(b, Next(b, s, config), i)
  {
    if s.Clear? && Settleable(b, s.cycle) {
      RowsPayable(b, s.cycle, s.rows);
      var claimed, bill := Claim(b, s.cycle), b.cycles[s.cycle].bill.value;
      var paid := Payout(claimed, s.rows, Budget(b, s.cycle), bill);
      PayoutShares(claimed, s.rows, Budget(b, s.cycle), bill);
      if Listed(s.rows, i) {
        var j :| 0 <= j < |s.rows| && s.rows[j].invoice == i;
        assert RowPaid(claimed, s.rows, Budget(b, s.cycle), paid, j);
      } else {
        assert Unlisted(claimed, s.rows, paid, i);
      }
    }
  }

  lemma StepGrows(states: seq<Books>, steps: seq<Step>, config: Config, k: nat, i: Id)
    requires IsRun(states, steps, config) && Initial(states[0]) && k < |steps|
    ensures Grew(states[k], states[k + 1], i)
  {
    RunKeeps(states, steps, config, k);
    assert Stepped(states, steps, config, k);
    NextGrows(states[k], steps[k], config, i);
  }

  lemma {:induction false} GrowsThroughout(states: seq<Books>, j: nat, k: nat, i: Id)
    requires j <= k < |states| && forall n: nat :: n < |states| - 1 ==> Grew(states[n], states[n + 1], i)
    ensures Grew(states[j], states[k], i)
    decreases k
  {
    if j < k {
      GrowsThroughout(states, j, k - 1, i);
      assert Grew(states[k - 1], states[k - 1 + 1], i);
    }
  }

  /** Once charged, an entry keeps its fee, merchant and cycle for ever, and collections only grow. */
  lemma CollectedNeverFalls(states: seq<Books>, steps: seq<Step>, config: Config, j: nat, k: nat, i: Id)
    requires IsRun(states, steps, config) && Initial(states[0]) && j <= k < |states|
    ensures Grew(states[j], states[k], i)
  {
    forall n: nat | n < |states| - 1
      ensures Grew(states[n], states[n + 1], i)
    {
      StepGrows(states, steps, config, n, i);
    }
    GrowsThroughout(states, j, k, i);
  }

  /** Recording a receipt brings its entry exactly up to date. */
  lemma ReceiptIsExact(b: Books, i: Id, txid: string, units: int)
    requires Inv(b) && 0 < units
    ensures Exact(RecordReceipt(b, i, txid, units), i)
  {
    InsertReceiptKeeps(b, i, txid, units);
    assert EntryOk(b, i);
  }

  lemma ReceiveStaysExact(b: Books, j: Id, txid: string, units: int, i: Id)
    requires Inv(b) && i in b.entries && Exact(b, i)
    ensures Exact(RecordReceipt(b, j, txid, units), i)
  {
    if 0 < units {
      ReceiptIsExact(b, j, txid, units);
      if j != i && (j, Chain(txid)) !in b.receipts {
        ReceivedWrite(b.receipts, (j, Chain(txid)), units, i);
      }
    }
  }

  lemma OpeningStaysExact(b: Books, m: Id, c: Id, now: int, config: Config, i: Id)
    requires Exact(b, i)
    ensures Exact(EnsureCycle(b, m, c, now, config), i)
  {
  }

  lemma ChargeStaysExact(b: Books, j: Id, m: Id, fee: nat, now: int, i: Id)
    requires i in b.entries && Exact(b, i)
    ensures Exact(InsertEntry(b, j, m, fee, now), i)
  {
  }

  lemma NextStaysExact(b: Books, s: Step, config: Config, i: Id)
    requires Inv(b) && Enabled(b, s) && !s.Note? && !s.Apply?
    requires i in b.entries && Exact(b, i)
    ensures Exact(Next(b, s, config), i)
  {
    match s
    case Charge(j, m, fee, now) => ChargeStaysExact(b, j, m, fee, now, i);
    case OpenNew(m, c, now) => OpeningStaysExact(b, m, c, now, config, i);
    case Receive(j, txid, units) => ReceiveStaysExact(b, j, txid, units, i);
    case Clear(c, rows) => SettleStaysExact(b, c, rows, i);
    case _ =>
  }

  /** With receipts recorded one call at a time, an entry once exact stays exact: collected is the
      smaller of the fee and everything received, whatever else happens, settlements included. */
  lemma {:induction false} SequentialRunsStayExact(states: seq<Books>, steps: seq<Step>, config: Config, j: nat, k: nat, i: Id)
    requires IsRun(states, steps, config) && Initial(states[0]) && j <= k < |states|
    requires forall n :: j <= n < k ==> !steps[n].Note? && !steps[n].Apply?
    requires i in states[j].entries && Exact(states[j], i)
    ensures Exact(states[k], i)
    decreases k
  {
    if j < k {
      SequentialRunsStayExact(states, steps, config, j, k - 1, i);
      CollectedNeverFalls(states, steps, config, j, k - 1, i);
      RunKeeps(states, steps, config, k - 1);
      assert Stepped(states, steps, config, k - 1);
      NextStaysExact(states[k - 1], steps[k - 1], config, i);
    }
  }

  // ---- suspension ----------------------------------------------------------------------------

  predicate IsSuspended(b: Books, c: Id) {
    c in b.cycles && b.cycles[c].status == Suspended
  }

  lemma LedgerNeverSuspends(b: Books, s: Step, config: Config, c: Id)
    requires Enabled(b, s) && (s.Charge? || s.Receive? || s.Note? || s.Apply?)
    ensures IsSuspended(Next(b, s, config), c) ==> IsSuspended(b, c)
  {
  }

  lemma OpeningNeverSuspends(b: Books, m: Id, d: Id, now: int, config: Config, c: Id)
    ensures IsSuspended(EnsureCycle(b, m, d, now, config), c) ==> IsSuspended(b, c)
  {
  }

  lemma StatusOnlyBy(b: Books, s: Step, config: Config, c: Id)
    requires Enabled(b, s) && !s.Clear? && !IsSuspended(b, c) && IsSuspended(Next(b, s, config), c)
    ensures s.MarkSuspended? && s.cycle == c
  {
    if s.Charge? || s.Receive? || s.Note? || s.Apply? {
      LedgerNeverSuspends(b, s, config, c);
    } else if s.OpenNew? {
      OpeningNeverSuspends(b, s.merchant, s.cycle, s.now, config, c);
    }
  }

  /** In any run, a cycle is suspended only more than 14 days after its settlement invoice was begun,
      the reading of the clock from which its grace period counts. The invoice's own stamp is that
      reading or a later one. */
  lemma SuspensionIsLate(states: seq<Books>, steps: seq<Step>, config: Config, k: nat, c: Id)
    requires IsRun(states, steps, config) && Initial(states[0]) && k < |steps|
    requires !IsSuspended(states[k], c) && IsSuspended(states[k + 1], c)
    ensures steps[k].MarkSuspended? && steps[k].cycle == c
    ensures c in states[k].cycles && states[k].cycles[c].bill.Some? && states[k].cycles[c].bill.value in states[k].bills
    ensures var bill := states[k].bills[states[k].cycles[c].bill.value];
      steps[k].now > bill.begun + 14 * DAY && bill.begun <= bill.createdAt
  {
    assert Stepped(states, steps, config, k);
    RunKeeps(states, steps, config, k);
    if steps[k].Clear? {
      SettleCycles(states[k], steps[k].cycle, steps[k].rows);
    }
    StatusOnlyBy(states[k], steps[k], config, c);
    assert BillOk(states[k], c);
  }

  // ---- late receipts -------------------------------------------------------------------------

  /** A receipt that lands lowers its cycle's balance by exactly what was newly collected if and
      only if that much is still outstanding there; on a live cycle it always is. */
  lemma CreditLands(b: Books, i: Id, received: int)
    requires Inv(b) && i in b.entries && b.entries[i].cycle.Some?
    ensures b.entries[i].cycle.value in b.cycles
    ensures var c := b.entries[i].cycle.value;
      var delta := Collect(b.entries[i], received).collected - b.entries[i].collected;
      && (ApplyCollected(b, i, received).cycles[c].outstanding == b.cycles[c].outstanding - delta <==> delta <= b.cycles[c].outstanding)
      && (Live(b.cycles[c].status) ==> delta <= b.cycles[c].outstanding)
  {
    assert Attached(b, i) && EntryOk(b, i) && CycleOk(b, b.entries[i].cycle.value);
    if Live(b.cycles[b.entries[i].cycle.value].status) {
      LiveBalance(b, b.entries[i].cycle.value);
    }
  }

  function AllRemaining(entries: map<Id, Entry>): map<Id, int> {
    map i | i in entries :: RemainingOf(entries[i])
  }

  const SHOP := map[0 as Id := Merchant(New, Active)]

  function FirstCycle(config: Config, total: int, outstanding: int, status: Status): Cycle {
    Cycle(0, config.newDays * DAY, total, 0, outstanding, status, None, None)
  }

  function SecondCycle(config: Config): Cycle {
    Cycle(0, config.newDays * DAY + 1 + config.newDays * DAY, 1, 0, 1, Open, None, None)
  }

  /** The shop with its first cycle, its one entry, and (once absorbed) the second cycle. */
  function Shop(entries: map<Id, Entry>, cycles: map<Id, Cycle>, carried: map<Id, int>): Books {
    Books(entries, map[], cycles, SHOP, map[], carried)
  }

  lemma OpensFirst(config: Config)
    ensures EnsureCycle(Shop(map[], map[], map[]), 0, 0, 0, config)
         == Shop(map[], map[0 := FirstCycle(config, 0, 0, Open)], map[0 := 0])
  {
    assert CarriedOverOf(map[], 0) == map[];
  }

  lemma ChargesFirst(config: Config)
    ensures InsertEntry(Shop(map[], map[0 := FirstCycle(config, 0, 0, Open)], map[0 := 0]), 0, 0, 1, 0)
         == Shop(map[0 := Entry(0, 1, 0, false, Some(0), 0)], map[0 := FirstCycle(config, 1, 1, Open)], map[0 := 0])
  {
    assert IsOpenFor(map[0 := FirstCycle(config, 0, 0, Open)], 0, 0);
  }

  lemma AbsorbsFirst(config: Config, entries: map<Id, Entry>)
    ensures EnsureCycle(Shop(entries, map[0 := FirstCycle(config, 1, 1, CarriedOver)], map[0 := 0]), 0, 1, config.newDays * DAY + 1, config)
         == Shop(entries, map[0 := FirstCycle(config, 1, 0, CarriedOver), 1 := SecondCycle(config)], map[0 := 0, 1 := 1])
  {
    var cycles: map<Id, Cycle> := map[0 := FirstCycle(config, 1, 1, CarriedOver)];
    assert CarriedOverOf(cycles, 0) == map[][0 := 1];
    TotalWrite(map[], 0 as Id, 1);
    assert Zeroed(cycles, 0) == map[0 := FirstCycle(config, 1, 0, CarriedOver)];
  }

  lemma OnlySecondOwes(cycles: map<Id, Cycle>)
    requires cycles.Keys == {0, 1} && cycles[0].merchant == 0 && cycles[1].merchant == 0
    requires cycles[0].outstanding == 0 && cycles[1].outstanding == 1
    ensures Total(OutstandingOf(cycles, 0)) == 1
  {
    var none: map<Id, int> := map[];
    assert OutstandingOf(cycles, 0) == none[0 := 0][1 := 1];
    TotalWrite(none, 0, 0);
    TotalWrite(none[0 := 0], 1, 1);
  }

  lemma OnlyEntryIsPaid(entries: map<Id, Entry>)
    requires entries.Keys == {0} && entries[0].collected == entries[0].fee
    ensures Total(AllRemaining(entries)) == 0
  {
    var none: map<Id, int> := map[];
    assert AllRemaining(entries) == none[0 := 0];
    TotalWrite(none, 0, 0);
  }

  lemma LateReceiptRecorded(config: Config)
    ensures var b := Shop(map[0 := Entry(0, 1, 0, false, Some(0), 0)],
        map[0 := FirstCycle(config, 1, 0, CarriedOver), 1 := SecondCycle(config)], map[0 := 0, 1 := 1]);
      var b' := RecordReceipt(b, 0, "t", 1);
      && b'.entries == map[0 := Entry(0, 1, 1, true, Some(0), 0)]
      && b'.cycles == map[0 := FirstCycle(config, 1, 0, CarriedOver).(auto := 1), 1 := SecondCycle(config)]
  {
    ReceivedWrite(map[], (0, Chain("t")), 1, 0);
    assert ReceiptsOf(map[], 0) == map[];
  }

  lemma LateReceiptClips(config: Config)
    ensures var b := Shop(map[0 := Entry(0, 1, 0, false, Some(0), 0)],
        map[0 := FirstCycle(config, 1, 0, CarriedOver), 1 := SecondCycle(config)], map[0 := 0, 1 := 1]);
      var b' := RecordReceipt(b, 0, "t", 1);
      Total(AllRemaining(b'.entries)) == 0 && Total(OutstandingOf(b'.cycles, 0)) == 1
  {
    LateReceiptRecorded(config);
    var b := Shop(map[0 := Entry(0, 1, 0, false, Some(0), 0)],
                  map[0 := FirstCycle(config, 1, 0, CarriedOver), 1 := SecondCycle(config)], map[0 := 0, 1 := 1]);
    OnlyEntryIsPaid(RecordReceipt(b, 0, "t", 1).entries);
    OnlySecondOwes(RecordReceipt(b, 0, "t", 1).cycles);
  }

  lemma ShopCarriesOver(config: Config) returns (states: seq<Books>, steps: seq<Step>)
    ensures IsRun(states, steps, config) && states[0] == Shop(map[], map[], map[])
    ensures states[|steps|] == Shop(map[0 := Entry(0, 1, 0, false, Some(0), 0)], map[0 := FirstCycle(config, 1, 1, CarriedOver)], map[0 := 0])
  {
    states, steps := [Shop(map[], map[], map[])], [];
    OpensFirst(config);
    states, steps := Extended(states, steps, config, OpenNew(0, 0, 0));
    ChargesFirst(config);
    states, steps := Extended(states, steps, config, Charge(0, 0, 1, 0));
    states, steps := Extended(states, steps, config, Close(0, 0, config.newDays * DAY + 1, config.newDays * DAY + 1, config.newDays * DAY + 1));
    assert states[3].cycles == map[0 := FirstCycle(config, 1, 1, CarriedOver)];
  }

  /** Once a carried-over cycle's debt sits in its successor, a late receipt on one of its entries
      clips at zero: here the merchant is left owing 1 while nothing is uncollected. So a
      merchant-wide law "outstanding equals uncollected" does not hold, only the law per live cycle. */
  lemma LateReceiptStrandsDebt(config: Config) returns (states: seq<Books>, steps: seq<Step>)
    ensures IsRun(states, steps, config) && Initial(states[0])
    ensures var b := states[|steps|];
      Total(AllRemaining(b.entries)) == 0 && Total(OutstandingOf(b.cycles, 0)) == 1
  {
    states, steps := ShopCarriesOver(config);
    AbsorbsFirst(config, map[0 := Entry(0, 1, 0, false, Some(0), 0)]);
    states, steps := Extended(states, steps, config, OpenNew(0, 1, config.newDays * DAY + 1));
    states, steps := Extended(states, steps, config, Receive(0, "t", 1));
    LateReceiptClips(config);
  }

  lemma Lengthened(states: seq<Books>, steps: seq<Step>, config: Config, s: Step)
    requires IsRun(states, steps, config) && Enabled(states[|steps|], s)
    ensures IsRun(states + [Next(states[|steps|], s, config)], steps + [s], config)
  {
    forall k: nat
      ensures Stepped(states + [Next(states[|steps|], s, config)], steps + [s], config, k)
    {
      assert Stepped(states, steps, config, k);
    }
  }

  lemma Extended(states: seq<Books>, steps: seq<Step>, config: Config, s: Step) returns (states': seq<Books>, steps': seq<Step>)
    requires IsRun(states, steps, config) && Enabled(states[|steps|], s)
    ensures IsRun(states', steps', config) && |steps'| == |steps| + 1
    ensures states'[0] == states[0] && states'[|steps'|] == Next(states[|steps|], s, config)
  {
    Lengthened(states, steps, config, s);
    states', steps' := states + [Next(states[|steps|], s, config)], steps + [s];
  }
}
