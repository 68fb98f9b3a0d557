/** The life of a settlement invoice: when it is linked to a cycle, and until when paying it can still
    settle that cycle. */
module SettlementInvoices {
  import opened Sums
  import opened Books
  import opened BooksInvariant
  import opened CycleWorkflow
  import opened Settlements
  import opened BillingRuns

  /** The step makes invoice `bill` for the open cycle `c` and links the two: the closing pass does, and
      so does a merchant's own request. */
  predicate Links(b: Books, s: Step, c: Id, bill: Id) {
    && (s.Close? || s.Request?) && s.cycle == c && s.bill == bill && bill !in b.bills
    && c in b.cycles && b.cycles[c].status == Open && b.cycles[c].outstanding >= MIN_SETTLEMENT
    && (s.Close? ==> b.cycles[c].periodEnd < s.now)
  }

  /** The step takes cycle `c` out of the settlement query's sight: it settles it, or carries it over
      because it owes too little once its grace is over. */
  predicate Ends(b: Books, s: Step, c: Id) {
    || (s.Clear? && s.cycle == c && Settleable(b, c))
    || (s.MarkOverdue? && s.cycle == c && c in b.cycles && b.cycles[c].status == Invoiced
        && b.cycles[c].grace.Some? && b.cycles[c].grace.value < s.now && b.cycles[c].outstanding < MIN_SETTLEMENT)
  }

  predicate Closed(s: Status) { s == Paid || s == CarriedOver }

  // ---- what a step may do to a cycle's place in the workflow ---------------------------------

  /** The row keeps its merchant, its bill once it has one, and a closed status. */
  predicate Onward(r: Cycle, r': Cycle) {
    && r'.merchant == r.merchant
    && (r.bill.Some? ==> r'.bill == r.bill)
    && (Closed(r.status) ==> r'.status == r.status)
  }

  predicate Stays(b: Books, b': Books, c: Id)
    requires c in b.cycles
  {
    c in b'.cycles && Onward(b.cycles[c], b'.cycles[c]) && b'.cycles[c].status == b.cycles[c].status
  }

  lemma LedgerStays(b: Books, s: Step, config: Config, c: Id)
    requires Enabled(b, s) && c in b.cycles && (s.Charge? || s.Receive? || s.Note? || s.Apply? || s.Pay? || s.ChangeTier?)
    ensures Stays(b, Next(b, s, config), c)
  {
  }

  lemma OpeningStays(b: Books, m: Id, d: Id, now: int, config: Config, c: Id)
    requires c in b.cycles
    ensures Stays(b, EnsureCycle(b, m, d, now, config), c)
  {
  }

  lemma CloseMoves(b: Books, d: Id, bill: Id, now: int, begun: int, stamp: int, c: Id)
    requires Inv(b) && c in b.cycles
    ensures var b' := CloseCycle(b, d, bill, now, begun, stamp);
      && c in b'.cycles && Onward(b.cycles[c], b'.cycles[c])
      && (b.cycles[c].status != Open ==> b'.cycles[c].status == b.cycles[c].status)
  {
    assert BillOk(b, c);
  }

  lemma RequestMoves(b: Books, d: Id, bill: Id, stamp: int, later: int, c: Id)
    requires Inv(b) && c in b.cycles
    ensures var b' := RequestSettlement(b, d, bill, stamp, later);
      && c in b'.cycles && Onward(b.cycles[c], b'.cycles[c])
      && (b.cycles[c].status != Open ==> b'.cycles[c].status == b.cycles[c].status)
  {
    assert BillOk(b, c);
  }

  lemma OverdueElsewhere(b: Books, d: Id, now: int, c: Id)
    requires c in b.cycles && c != d
    ensures c in Overdue(b, d, now).cycles && Overdue(b, d, now).cycles[c] == b.cycles[c]
  {
  }

  function OverdueStatus(r: Cycle, now: int): Status {
    if r.status != Invoiced || r.grace.None? || r.grace.value >= now then r.status
    else if r.outstanding < MIN_SETTLEMENT then CarriedOver else PastDue
  }

  lemma OverdueRow(b: Books, c: Id, now: int)
    requires c in b.cycles
    ensures Overdue(b, c, now).cycles == b.cycles[c := b.cycles[c].(status := OverdueStatus(b.cycles[c], now))]
  {
    if OverdueStatus(b.cycles[c], now) == b.cycles[c].status {
      assert b.cycles[c := b.cycles[c]] == b.cycles;
    }
  }

  lemma OverdueOwn(b: Books, c: Id, now: int)
    requires c in b.cycles
    ensures var b' := Overdue(b, c, now);
      && c in b'.cycles && Onward(b.cycles[c], b'.cycles[c])
      && (Billed(b.cycles[c].status) ==>
          if Ends(b, MarkOverdue(c, now), c) then b'.cycles[c].status == CarriedOver else Billed(b'.cycles[c].status))
  {
    OverdueRow(b, c, now);
  }

  lemma OverdueMoves(b: Books, d: Id, now: int, c: Id)
    requires c in b.cycles
    ensures var b' := Overdue(b, d, now);
      && c in b'.cycles && Onward(b.cycles[c], b'.cycles[c])
      && (Billed(b.cycles[c].status) ==>
          if Ends(b, MarkOverdue(d, now), c) then b'.cycles[c].status == CarriedOver else Billed(b'.cycles[c].status))
  {
    if c == d {
      OverdueOwn(b, c, now);
    } else {
      OverdueElsewhere(b, d, now, c);
    }
  }

  lemma SuspendMoves(b: Books, d: Id, now: int, c: Id)
    requires c in b.cycles
    ensures var b' := Suspend(b, d, now);
      && c in b'.cycles && Onward(b.cycles[c], b'.cycles[c])
      && (Billed(b.cycles[c].status) ==> Billed(b'.cycles[c].status))
  {
  }

  lemma ClearMoves(b: Books, d: Id, rows: seq<Row>, c: Id)
    requires Inv(b) && d in b.cycles && EligibleRows(b, d, rows) && c in b.cycles
    ensures var b' := Settle(b, d, rows);
      && c in b'.cycles && Onward(b.cycles[c], b'.cycles[c])
      && b'.cycles[c].status == if Ends(b, Clear(d, rows), c) then Paid else b.cycles[c].status
  {
    SettleCycles(b, d, rows);
  }

  /** A billed cycle stays billed until a step ends it, and a closed one stays closed for ever. */
  lemma NextMoves(b: Books, s: Step, config: Config, c: Id)
    requires Inv(b) && Enabled(b, s) && c in b.cycles
    ensures var b' := Next(b, s, config);
      && c in b'.cycles && Onward(b.cycles[c], b'.cycles[c])
      && (Billed(b.cycles[c].status) ==> if Ends(b, s, c) then Closed(b'.cycles[c].status) else Billed(b'.cycles[c].status))
  {
    match s
    case OpenNew(m, d, now) => OpeningStays(b, m, d, now, config, c);
    case Close(d, bill, now, begun, stamp) => CloseMoves(b, d, bill, now, begun, stamp, c);
    case Request(d, bill, stamp, later) => RequestMoves(b, d, bill, stamp, later, c);
    case MarkOverdue(d, now) => OverdueMoves(b, d, now, c);
    case MarkSuspended(d, now) => SuspendMoves(b, d, now, c);
    case Clear(d, rows) => ClearMoves(b, d, rows, c);
    case _ => LedgerStays(b, s, config, c);
  }

  /** Invoices never vanish, and one without a cycle never gets one: only a new invoice is linked. */
  predicate Loose(b: Books, bill: Id) {
    bill in b.bills && forall d <- b.cycles :: !BilledBy(b.cycles, d, bill)
  }

  /** Bills only appear with the step that makes them. */
  predicate NoNewLink(b: Books, b': Books, bill: Id) {
    && (bill in b.bills ==> bill in b'.bills)
    && forall d <- b'.cycles :: BilledBy(b'.cycles, d, bill) ==> BilledBy(b.cycles, d, bill)
  }

  lemma OpeningLinksNothing(b: Books, m: Id, d: Id, now: int, config: Config, bill: Id)
    ensures NoNewLink(b, EnsureCycle(b, m, d, now, config), bill)
  {
  }

  lemma CloseLinksNew(b: Books, d: Id, made: Id, now: int, begun: int, stamp: int, bill: Id)
    requires bill in b.bills
    ensures NoNewLink(b, CloseCycle(b, d, made, now, begun, stamp), bill)
  {
  }

  lemma RequestLinksNew(b: Books, d: Id, made: Id, stamp: int, later: int, bill: Id)
    requires bill in b.bills
    ensures NoNewLink(b, RequestSettlement(b, d, made, stamp, later), bill)
  {
  }

  lemma OverdueLinksNothing(b: Books, d: Id, now: int, bill: Id)
    ensures NoNewLink(b, Overdue(b, d, now), bill)
  {
  }

  lemma SuspendLinksNothing(b: Books, d: Id, now: int, bill: Id)
    ensures NoNewLink(b, Suspend(b, d, now), bill)
  {
  }

  lemma ClearLinksNothing(b: Books, d: Id, rows: seq<Row>, bill: Id)
    requires Inv(b) && d in b.cycles && EligibleRows(b, d, rows)
    ensures NoNewLink(b, Settle(b, d, rows), bill)
  {
    SettleCycles(b, d, rows);
    if Settleable(b, d) {
      RowsPayable(b, d, rows);
      PayoutShares(Claim(b, d), rows, Budget(b, d), b.cycles[d].bill.value);
    }
  }

  lemma LedgerLinksNothing(b: Books, s: Step, config: Config, bill: Id)
    requires Enabled(b, s) && (s.Charge? || s.Receive? || s.Note? || s.Apply? || s.Pay? || s.ChangeTier?)
    ensures NoNewLink(b, Next(b, s, config), bill)
  {
  }

  lemma NextStaysLoose(b: Books, s: Step, config: Config, bill: Id)
    requires Inv(b) && Enabled(b, s) && Loose(b, bill)
    ensures Loose(Next(b, s, config), bill)
  {
    match s
    case OpenNew(m, d, now) => OpeningLinksNothing(b, m, d, now, config, bill);
    case Close(d, made, now, begun, stamp) => CloseLinksNew(b, d, made, now, begun, stamp, bill);
    case Request(d, made, stamp, later) => RequestLinksNew(b, d, made, stamp, later, bill);
    case MarkOverdue(d, now) => OverdueLinksNothing(b, d, now, bill);
    case MarkSuspended(d, now) => SuspendLinksNothing(b, d, now, bill);
    case Clear(d, rows) => ClearLinksNothing(b, d, rows, bill);
    case _ => LedgerLinksNothing(b, s, config, bill);
  }

  // ---- runs ---------------------------------------------------------------------------------

  /** The step makes invoice `bill` for cycle `c`, open or, when requested, already invoiced. */
  predicate Makes(b: Books, s: Step, c: Id, bill: Id) {
    || Links(b, s, c, bill)
    || (s.Request? && s.cycle == c && s.bill == bill && bill !in b.bills
        && c in b.cycles && b.cycles[c].status == Invoiced && b.cycles[c].outstanding >= MIN_SETTLEMENT)
  }

  lemma MadeLoose(b: Books, s: Step, config: Config, c: Id, bill: Id)
    requires Inv(b) && Enabled(b, s) && Makes(b, s, c, bill) && b.cycles[c].status != Open
    ensures Loose(Next(b, s, config), bill)
  {
    RequestedInvoiceIsLinkedIff(b, c, bill, s.stamp, s.later);
  }

  lemma MadeLinked(b: Books, s: Step, config: Config, c: Id, bill: Id)
    requires Inv(b) && Enabled(b, s) && Links(b, s, c, bill)
    ensures var b' := Next(b, s, config);
      BilledBy(b'.cycles, c, bill) && b'.cycles[c].status == Invoiced
  {
    assert CycleOk(b, c);
  }

  predicate Unended(states: seq<Books>, steps: seq<Step>, c: Id, j: nat, k: nat)
    requires k <= |steps| < |states|
  {
    forall n: nat | j < n < k :: !Ends(states[n], steps[n], c)
  }

  lemma {:induction false} LooseForGood(states: seq<Books>, steps: seq<Step>, config: Config, c: Id, bill: Id, j: nat, k: nat)
    requires IsRun(states, steps, config) && Initial(states[0]) && j < k < |states|
    requires Makes(states[j], steps[j], c, bill) && states[j].cycles[c].status != Open
    ensures Loose(states[k], bill)
    decreases k
  {
    assert Stepped(states, steps, config, k - 1);
    RunKeeps(states, steps, config, k - 1);
    if k == j + 1 {
      MadeLoose(states[j], steps[j], config, c, bill);
    } else {
      LooseForGood(states, steps, config, c, bill, j, k - 1);
      NextStaysLoose(states[k - 1], steps[k - 1], config, bill);
    }
  }

  lemma {:induction false} LinkedOnward(states: seq<Books>, steps: seq<Step>, config: Config, c: Id, bill: Id, j: nat, k: nat)
    requires IsRun(states, steps, config) && Initial(states[0]) && j < k < |states| && Links(states[j], steps[j], c, bill)
    ensures BilledBy(states[k].cycles, c, bill)
    ensures if Unended(states, steps, c, j, k) then Billed(states[k].cycles[c].status) else Closed(states[k].cycles[c].status)
    decreases k
  {
    assert Stepped(states, steps, config, k - 1);
    RunKeeps(states, steps, config, k - 1);
    if k == j + 1 {
      MadeLinked(states[j], steps[j], config, c, bill);
    } else {
      LinkedOnward(states, steps, config, c, bill, j, k - 1);
      NextMoves(states[k - 1], steps[k - 1], config, c);
      assert Unended(states, steps, c, j, k) <==> Unended(states, steps, c, j, k - 1) && !Ends(states[k - 1], steps[k - 1], c);
    }
  }

  predicate PaidInFull(b: Books, bill: Id) {
    bill in b.bills && b.bills[bill].confirmed && b.bills[bill].received >= b.bills[bill].price
  }

  /** Some cycle is there to be settled with this invoice. */
  predicate CanSettleACycle(b: Books, bill: Id) {
    exists d <- b.cycles :: BilledBy(b.cycles, d, bill) && Settleable(b, d)
  }

  /** A settlement invoice settles a cycle once it is paid in full, if and only if its cycle was open when
      it was made and has since neither been settled nor been carried over for owing too little. */
  lemma InvoiceSettlesIff(states: seq<Books>, steps: seq<Step>, config: Config, c: Id, bill: Id, j: nat, k: nat)
    requires IsRun(states, steps, config) && Initial(states[0]) && j < k < |states| && Makes(states[j], steps[j], c, bill)
    ensures CanSettleACycle(states[k], bill) <==>
            PaidInFull(states[k], bill) && states[j].cycles[c].status == Open && Unended(states, steps, c, j, k)
  {
    RunKeeps(states, steps, config, k);
    if states[j].cycles[c].status != Open {
      LooseForGood(states, steps, config, c, bill, j, k);
    } else {
      LinkedOnward(states, steps, config, c, bill, j, k);
      assert forall d <- states[k].cycles :: BilledBy(states[k].cycles, d, bill) ==> d == c;
    }
  }
}
