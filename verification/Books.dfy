/** The billing tables as values, and what each database transaction does to them.
    Amounts are zatoshis, instants are whole seconds, identifiers are numbers ordered as the
    stored text is. */
module Books {
  import opened Sums

  const MIN_SETTLEMENT := 5_000_000
  const DAY := 86_400

  datatype Status = Open | Invoiced | PastDue | Suspended | Paid | CarriedOver
  /** `merchants.billing_status`: active, past_due or suspended. */
  datatype Standing = Active | Late | Blocked
  datatype Tier = New | Standard | Trusted
  datatype Config = Config(newDays: nat, standardDays: nat)

  datatype Entry = Entry(merchant: Id, fee: nat, collected: int, auto: bool, cycle: Option<Id>, createdAt: int)
  /** A receipt is a chain transaction, or the share of a paid settlement invoice. */
  datatype Source = Chain(txid: string) | Settlement(bill: Id)
  datatype Cycle = Cycle(merchant: Id, periodEnd: int, total: int, auto: int, outstanding: int,
                         status: Status, bill: Option<Id>, grace: Option<int>)
  datatype Merchant = Merchant(tier: Tier, standing: Standing)
  /** A settlement invoice. `begun` is a history variable: the clock read when invoicing began, before
      the invoice got its own stamp. */
  datatype Bill = Bill(price: int, received: int, confirmed: bool, createdAt: int, begun: int)

  /** `carried` is a history variable, not a column: the debt a cycle was opened with. */
  datatype Books = Books(
    entries: map<Id, Entry>,
    receipts: map<(Id, Source), int>,
    cycles: map<Id, Cycle>,
    merchants: map<Id, Merchant>,
    bills: map<Id, Bill>,
    carried: map<Id, int>)

  function Min(a: int, b: int): int { if a < b then a else b }
  function Max(a: int, b: int): int { if a < b then b else a }

  predicate Live(s: Status) { s == Open || Billed(s) }
  predicate Billed(s: Status) { s == Invoiced || s == PastDue || s == Suspended }

  // ---- aggregates -------------------------------------------------------------------------

  function FeeOf(e: Entry): int { e.fee }
  function CollectedOf(e: Entry): int { e.collected }
  function RemainingOf(e: Entry): int { e.fee - e.collected }

  function Column(entries: map<Id, Entry>, c: Id, f: Entry -> int): map<Id, int> {
    map i | i in entries && entries[i].cycle == Some(c) :: f(entries[i])
  }

  function ReceiptsOf(receipts: map<(Id, Source), int>, i: Id): map<(Id, Source), int> {
    map k | k in receipts && k.0 == i :: receipts[k]
  }

  ghost function Received(receipts: map<(Id, Source), int>, i: Id): int {
    Total(ReceiptsOf(receipts, i))
  }

  function OutstandingOf(cycles: map<Id, Cycle>, m: Id): map<Id, int> {
    map c | c in cycles && cycles[c].merchant == m :: cycles[c].outstanding
  }

  function CarriedOverOf(cycles: map<Id, Cycle>, m: Id): map<Id, int> {
    map c | c in cycles && cycles[c].merchant == m && cycles[c].status == CarriedOver :: cycles[c].outstanding
  }

  predicate IsOpenFor(cycles: map<Id, Cycle>, m: Id, c: Id) {
    c in cycles && cycles[c].merchant == m && cycles[c].status == Open
  }

  ghost function OpenCycle(cycles: map<Id, Cycle>, m: Id): Option<Id> {
    if c :| IsOpenFor(cycles, m, c) then Some(c) else None
  }

  // ---- fee ledger -------------------------------------------------------------------------

  function Charge(cycles: map<Id, Cycle>, c: Option<Id>, fee: int): map<Id, Cycle> {
    if c.None? || c.value !in cycles then cycles
    else
      var r := cycles[c.value];
      cycles[c.value := r.(total := r.total + fee, outstanding := r.outstanding + fee)]
  }

  ghost function InsertEntry(b: Books, i: Id, m: Id, fee: nat, now: int): Books {
    if i in b.entries then b
    else
      var open := OpenCycle(b.cycles, m);
      b.(entries := b.entries[i := Entry(m, fee, 0, false, open, now)], cycles := Charge(b.cycles, open, fee))
  }

  function InsertReceipt(b: Books, i: Id, source: Source, units: int): Books {
    if units <= 0 || (i, source) in b.receipts then b
    else b.(receipts := b.receipts[(i, source) := units])
  }

  function Collect(e: Entry, received: int): Entry {
    var collected := Max(Min(received, e.fee), e.collected);
    e.(collected := collected, auto := collected >= e.fee)
  }

  function Credit(cycles: map<Id, Cycle>, c: Option<Id>, delta: int): map<Id, Cycle> {
    if c.None? || c.value !in cycles then cycles
    else
      var r := cycles[c.value];
      cycles[c.value := r.(auto := r.auto + delta, outstanding := Max(0, r.outstanding - delta))]
  }

  function ApplyCollected(b: Books, i: Id, received: int): Books {
    if i !in b.entries then b
    else
      var e := Collect(b.entries[i], received);
      b.(entries := b.entries[i := e], cycles := Credit(b.cycles, e.cycle, e.collected - b.entries[i].collected))
  }

  ghost function RecordReceipt(b: Books, i: Id, txid: string, units: int): Books {
    if units <= 0 then b
    else
      var b' := InsertReceipt(b, i, Chain(txid), units);
      ApplyCollected(b', i, Received(b'.receipts, i))
  }

  // ---- billing cycles ---------------------------------------------------------------------

  function Zeroed(cycles: map<Id, Cycle>, m: Id): map<Id, Cycle> {
    map c | c in cycles ::
      if cycles[c].merchant == m && cycles[c].status == CarriedOver && cycles[c].outstanding > 0
      then cycles[c].(outstanding := 0) else cycles[c]
  }

  ghost function EnsureCycle(b: Books, m: Id, id: Id, now: int, config: Config): Books {
    if OpenCycle(b.cycles, m).Some? || m !in b.merchants || id in b.cycles then b
    else
      var days := if b.merchants[m].tier == New then config.newDays else config.standardDays;
      var carried := Total(CarriedOverOf(b.cycles, m));
      var kept := if carried > 0 then Zeroed(b.cycles, m) else b.cycles;
      b.(cycles := kept[id := Cycle(m, now + days * DAY, carried, 0, carried, Open, None, None)],
         carried := b.carried[id := carried])
  }

  function GraceDays(t: Tier): int { if t == Trusted then 14 else 7 }
  function SuspendDays(t: Tier): int { match t case New => 7 case Trusted => 30 case Standard => 14 }

  function Invoice(b: Books, c: Id, bill: Id, begun: int, stamp: int, grace: int): Books
    requires c in b.cycles
  {
    b.(bills := b.bills[bill := Bill(b.cycles[c].outstanding, 0, false, stamp, begun)],
       cycles := b.cycles[c := b.cycles[c].(status := Invoiced, bill := Some(bill), grace := Some(grace))])
  }

  function SetStatus(b: Books, c: Id, status: Status): Books
    requires c in b.cycles
  {
    b.(cycles := b.cycles[c := b.cycles[c].(status := status)])
  }

  function SetStanding(b: Books, m: Id, standing: Standing): Books {
    if m in b.merchants then b.(merchants := b.merchants[m := b.merchants[m].(standing := standing)]) else b
  }

  /** One expired open cycle: paid, carried over or invoiced by what it still owes. Three readings of
      the clock: when the pass began, for the grace period, and for the invoice's stamp. */
  function CloseCycle(b: Books, c: Id, bill: Id, now: int, begun: int, stamp: int): Books {
    if c !in b.cycles || b.cycles[c].status != Open || b.cycles[c].periodEnd >= now then b
    else if b.cycles[c].outstanding <= 0 then SetStatus(b, c, Paid)
    else if b.cycles[c].outstanding < MIN_SETTLEMENT then SetStatus(b, c, CarriedOver)
    else if b.cycles[c].merchant !in b.merchants || bill in b.bills then b
    else Invoice(b, c, bill, begun, stamp, begun + GraceDays(b.merchants[b.cycles[c].merchant].tier) * DAY)
  }

  /** The merchant's own request to settle the current (open or invoiced) cycle early; here the grace
      period is counted from a later reading of the clock. */
  function RequestSettlement(b: Books, c: Id, bill: Id, stamp: int, later: int): Books {
    if c !in b.cycles || b.cycles[c].outstanding < MIN_SETTLEMENT || bill in b.bills then b
    else if b.cycles[c].status != Open && b.cycles[c].status != Invoiced then b
    else if b.cycles[c].status == Open then Invoice(b, c, bill, stamp, stamp, later + 7 * DAY)
    else b.(bills := b.bills[bill := Bill(b.cycles[c].outstanding, 0, false, stamp, stamp)])
  }

  function Overdue(b: Books, c: Id, now: int): Books {
    if c !in b.cycles || b.cycles[c].status != Invoiced || b.cycles[c].grace.None? || b.cycles[c].grace.value >= now then b
    else if b.cycles[c].outstanding < MIN_SETTLEMENT then
      SetStanding(SetStatus(b, c, CarriedOver), b.cycles[c].merchant, Active)
    else SetStanding(SetStatus(b, c, PastDue), b.cycles[c].merchant, Late)
  }

  function Suspend(b: Books, c: Id, now: int): Books {
    if c !in b.cycles || b.cycles[c].status != PastDue || b.cycles[c].grace.None? || b.cycles[c].merchant !in b.merchants then b
    else if now > b.cycles[c].grace.value + SuspendDays(b.merchants[b.cycles[c].merchant].tier) * DAY then
      SetStanding(SetStatus(b, c, Suspended), b.cycles[c].merchant, Blocked)
    else b
  }

  // ---- settlement -------------------------------------------------------------------------

  datatype Row = Row(invoice: Id, remaining: int)

  predicate Settleable(b: Books, c: Id) {
    && c in b.cycles
    && Billed(b.cycles[c].status)
    && b.cycles[c].bill.Some?
    && b.cycles[c].bill.value in b.bills
    && var bill := b.bills[b.cycles[c].bill.value]; bill.confirmed && bill.received >= bill.price
  }

  predicate Eligible(b: Books, c: Id, i: Id)
    requires c in b.cycles
  {
    && i in b.entries
    && var e := b.entries[i];
    && e.merchant == b.cycles[c].merchant
    && e.cycle.Some? && e.cycle.value in b.cycles
    && (e.cycle.value == c || b.cycles[e.cycle.value].status == CarriedOver)
    && e.fee > e.collected
  }

  predicate Before(entries: map<Id, Entry>, i: Id, j: Id)
    requires i in entries && j in entries
  {
    entries[i].createdAt < entries[j].createdAt || (entries[i].createdAt == entries[j].createdAt && i < j)
  }

  /** `rows` is the answer to the settlement query: every eligible entry, oldest first. */
  ghost predicate EligibleRows(b: Books, c: Id, rows: seq<Row>)
    requires c in b.cycles
  {
    && (forall k :: 0 <= k < |rows| ==> Eligible(b, c, rows[k].invoice) && rows[k].remaining == RemainingOf(b.entries[rows[k].invoice]))
    && (forall i <- b.entries.Keys :: Eligible(b, c, i) ==> exists k :: 0 <= k < |rows| && rows[k].invoice == i)
    && (forall j, k :: 0 <= j < k < |rows| ==> Before(b.entries, rows[j].invoice, rows[k].invoice))
  }

  function PayRow(b: Books, i: Id, units: int, bill: Id): Books
    requires i in b.entries
  {
    b.(receipts := b.receipts[(i, Settlement(bill)) := units],
       entries := b.entries[i := b.entries[i].(collected := b.entries[i].collected + units)])
  }

  /** The greedy loop: each row takes what it can until the budget is gone. */
  function Payout(b: Books, rows: seq<Row>, budget: int, bill: Id): Books
    requires forall r <- rows :: r.invoice in b.entries
    decreases |rows|
  {
    if rows == [] then b
    else
      var units := Min(rows[0].remaining, budget);
      if units <= 0 then b
      else Payout(PayRow(b, rows[0].invoice, units, bill), rows[1..], budget - units, bill)
  }

  function Budget(b: Books, c: Id): int
    requires Settleable(b, c)
  {
    var bill := b.bills[b.cycles[c].bill.value];
    Min(bill.received, bill.price)
  }

  function Claim(b: Books, c: Id): Books
    requires c in b.cycles
  {
    b.(cycles := b.cycles[c := b.cycles[c].(status := Paid, outstanding := 0)])
  }

  function Settle(b: Books, c: Id, rows: seq<Row>): Books
    requires Settleable(b, c) ==> forall r <- rows :: r.invoice in b.entries
  {
    if !Settleable(b, c) then b
    else SetStanding(Payout(Claim(b, c), rows, Budget(b, c), b.cycles[c].bill.value), b.cycles[c].merchant, Active)
  }

  // ---- what the scanner and the operators may do ---------------------------------------------

  function BillPayment(b: Books, bill: Id, received: int, confirmed: bool): Books {
    if bill in b.bills then b.(bills := b.bills[bill := b.bills[bill].(received := received, confirmed := confirmed)]) else b
  }

  function Retier(b: Books, m: Id, tier: Tier): Books {
    if m in b.merchants then b.(merchants := b.merchants[m := b.merchants[m].(tier := tier)]) else b
  }
}
