/** Runs from a fresh database in which a promise fails. In one a receipt is lost to a settlement: a call
    has summed the receipts of an entry, a settlement pays the entry a little, and the sum applied
    afterwards falls short. In others a settlement invoice is paid in full and settles nothing. */
module FailingRuns {
  import opened Sums
  import opened Books
  import opened BooksInvariant
  import opened CycleWorkflow
  import opened Settlements
  import opened BillingRuns
  import opened ConcurrentReceipts
  import opened SettlementReach

  const FEE := MIN_SETTLEMENT

  function FirstEnd(config: Config): int { config.newDays * DAY }
  function FirstClose(config: Config): int { FirstEnd(config) + 1 }
  function FirstGrace(config: Config): int { FirstClose(config) + 7 * DAY }
  function SecondEnd(config: Config): int { FirstClose(config) + config.newDays * DAY }
  function SecondClose(config: Config): int { SecondEnd(config) + 1 }

  /** The first cycle: charged one fee, invoiced at it, then one unit short of the minimum and carried over. */
  function First(config: Config, auto: int, status: Status): Cycle {
    Cycle(0, FirstEnd(config), FEE, auto, FEE - auto, status,
          if status == Open then None else Some(0), if status == Open then None else Some(FirstGrace(config)))
  }

  function Second(config: Config, total: int, status: Status): Cycle {
    Cycle(0, SecondEnd(config), total, 0, total, status,
          if status == Open then None else Some(1), if status == Open then None else Some(SecondClose(config) + 7 * DAY))
  }

  function FirstBill(config: Config): Bill { Bill(FEE, 0, false, FirstClose(config), FirstClose(config)) }

  function SecondBill(config: Config, paid: bool): Bill {
    Bill(FEE, if paid then FEE else 0, paid, SecondClose(config), SecondClose(config))
  }

  function FirstEntry(collected: int): Entry { Entry(0, FEE, collected, false, Some(0), 0) }

  function SecondEntry(): Entry { Entry(0, FEE, 0, false, Some(1), 1) }

  const ONE_RECEIPT: map<(Id, Source), int> := map[(0, Chain("t")) := 1]

  // ---- the books along the run ---------------------------------------------------------------

  function Opened(config: Config): Books {
    Shop(map[], map[0 := FirstCycle(config, 0, 0, Open)], map[0 := 0])
  }

  function Charged(config: Config): Books {
    Books(map[0 := FirstEntry(0)], map[], map[0 := First(config, 0, Open)], SHOP, map[], map[0 := 0])
  }

  function Closed(config: Config): Books {
    Books(map[0 := FirstEntry(0)], map[], map[0 := First(config, 0, Invoiced)], SHOP, map[0 := FirstBill(config)], map[0 := 0])
  }

  function Reopened(config: Config): Books {
    Books(map[0 := FirstEntry(0)], map[], map[0 := First(config, 0, Invoiced), 1 := Second(config, 0, Open)], SHOP,
          map[0 := FirstBill(config)], map[0 := 0, 1 := 0])
  }

  function Recharged(config: Config): Books {
    Books(map[0 := FirstEntry(0), 1 := SecondEntry()], map[], map[0 := First(config, 0, Invoiced), 1 := Second(config, FEE, Open)],
          SHOP, map[0 := FirstBill(config)], map[0 := 0, 1 := 0])
  }

  function Nibbled(config: Config, status: Status): Books {
    Books(map[0 := FirstEntry(1), 1 := SecondEntry()], ONE_RECEIPT,
          map[0 := First(config, 1, status), 1 := Second(config, FEE, Open)],
          SHOP, map[0 := FirstBill(config)], map[0 := 0, 1 := 0])
  }

  function Billed2(config: Config, paid: bool): Books {
    Books(map[0 := FirstEntry(1), 1 := SecondEntry()], ONE_RECEIPT,
          map[0 := First(config, 1, CarriedOver), 1 := Second(config, FEE, Invoiced)],
          SHOP, map[0 := FirstBill(config), 1 := SecondBill(config, paid)], map[0 := 0, 1 := 0])
  }

  lemma Charges(config: Config)
    ensures InsertEntry(Opened(config), 0, 0, FEE, 0) == Charged(config)
  {
    assert IsOpenFor(Opened(config).cycles, 0, 0);
  }

  lemma Closes(config: Config)
    ensures CloseCycle(Charged(config), 0, 0, FirstClose(config), FirstClose(config), FirstClose(config)) == Closed(config)
  {
  }

  lemma Reopens(config: Config)
    ensures EnsureCycle(Closed(config), 0, 1, FirstClose(config), config) == Reopened(config)
  {
    assert CarriedOverOf(Closed(config).cycles, 0) == map[];
  }

  lemma Recharges(config: Config)
    ensures InsertEntry(Reopened(config), 1, 0, FEE, 1) == Recharged(config)
  {
    assert IsOpenFor(Reopened(config).cycles, 0, 1);
  }

  lemma Nibbles(config: Config)
    ensures RecordReceipt(Recharged(config), 0, "t", 1) == Nibbled(config, Invoiced)
  {
    var none: map<(Id, Source), int> := map[];
    ReceivedWrite(none, (0, Chain("t")), 1, 0);
    assert ReceiptsOf(none, 0) == map[] && none[(0, Chain("t")) := 1] == ONE_RECEIPT;
    assert InsertReceipt(Recharged(config), 0, Chain("t"), 1).receipts == ONE_RECEIPT;
  }

  lemma CarriesOver(config: Config)
    ensures Overdue(Nibbled(config, Invoiced), 0, FirstGrace(config) + 1) == Nibbled(config, CarriedOver)
  {
  }

  lemma Invoices(config: Config)
    ensures CloseCycle(Nibbled(config, CarriedOver), 1, 1, SecondClose(config), SecondClose(config), SecondClose(config)) == Billed2(config, false)
  {
  }

  lemma IsPaid(config: Config)
    ensures BillPayment(Billed2(config, false), 1, FEE, true) == Billed2(config, true)
  {
  }

  lemma RunsHalfway(config: Config) returns (states: seq<Books>, steps: seq<Step>)
    ensures IsRun(states, steps, config) && Initial(states[0]) && states[|steps|] == Reopened(config)
  {
    states, steps := [Shop(map[], map[], map[])], [];
    OpensFirst(config);
    states, steps := Extended(states, steps, config, OpenNew(0, 0, 0));
    Charges(config);
    states, steps := Extended(states, steps, config, Charge(0, 0, FEE, 0));
    Closes(config);
    states, steps := Extended(states, steps, config, Close(0, 0, FirstClose(config), FirstClose(config), FirstClose(config)));
    Reopens(config);
    states, steps := Extended(states, steps, config, OpenNew(0, 1, FirstClose(config)));
  }

  lemma RunsThere(config: Config) returns (states: seq<Books>, steps: seq<Step>)
    ensures IsRun(states, steps, config) && Initial(states[0]) && states[|steps|] == Billed2(config, true)
  {
    states, steps := RunsHalfway(config);
    Recharges(config);
    states, steps := Extended(states, steps, config, Charge(1, 0, FEE, 1));
    Nibbles(config);
    states, steps := Extended(states, steps, config, Receive(0, "t", 1));
    CarriesOver(config);
    states, steps := Extended(states, steps, config, MarkOverdue(0, FirstGrace(config) + 1));
    Invoices(config);
    states, steps := Extended(states, steps, config, Close(1, 1, SecondClose(config), SecondClose(config), SecondClose(config)));
    IsPaid(config);
    states, steps := Extended(states, steps, config, Pay(1, FEE, true));
  }

  // ---- the call and the settlement -----------------------------------------------------------

  const CALLS := [Call(1, "u", 2)]
  const ROWS := [Row(0, FEE - 1), Row(1, FEE)]
  const SETTLES := Other(Clear(1, ROWS))

  function Noted(config: Config): Books { InsertReceipt(Billed2(config, true), 1, Chain("u"), 2) }

  lemma NotedReceipts(config: Config)
    ensures Received(Noted(config).receipts, 1) == 2
  {
    ReceivedWrite(ONE_RECEIPT, (1, Chain("u")), 2, 1);
    assert ReceiptsOf(ONE_RECEIPT, 1) == map[];
  }

  /** Both entries are to be paid from the second invoice, the first one before the second. */
  lemma RowsAnswer(config: Config)
    ensures Settleable(Noted(config), 1) && EligibleRows(Noted(config), 1, ROWS)
  {
    assert Eligible(Noted(config), 1, 0) && Eligible(Noted(config), 1, 1);
    assert ROWS[0].invoice == 0 && ROWS[1].invoice == 1;
  }

  lemma SecondShare(config: Config)
    requires Settleable(Noted(config), 1)
    ensures ShareOf(Noted(config), 1, ROWS, 1) == 1
  {
    assert ROWS[0].invoice != 1 && ROWS[1].invoice == 1;
    assert Prefix(ROWS, 1) == Prefix(ROWS, 0) + ROWS[0].remaining;
  }

  lemma BilledShare(config: Config)
    requires Settleable(Billed2(config, true), 1)
    ensures ShareOf(Billed2(config, true), 1, ROWS, 1) == 1
  {
    assert ROWS[0].invoice != 1 && ROWS[1].invoice == 1;
    assert Prefix(ROWS, 1) == Prefix(ROWS, 0) + ROWS[0].remaining;
  }

  ghost function Begun(config: Config): World { World(Billed2(config, true), seq(|CALLS|, _ => Ready)) }

  ghost function Summing(config: Config): World { World(Noted(config), [Summed(2)]) }

  lemma SumsFirst(config: Config)
    ensures Play(CALLS, Begun(config), [Work(0), Work(0)], config) == Summing(config)
  {
    NotedReceipts(config);
    assert Begun(config).phases == [Ready];
    var first: seq<Move> := [Work(0)];
    assert [Work(0), Work(0)][..1] == first && first[..0] == [];
    assert Play(CALLS, Begun(config), [], config) == Begun(config);
    assert Play(CALLS, Begun(config), first, config) == World(Noted(config), [Inserted]);
  }

  /** Nothing about this settlement is harmless. */
  lemma SettlementHarms(config: Config)
    ensures Pays(Noted(config), SETTLES, 1) && 1 in Noted(config).entries
    ensures !Harmless(CALLS, Summing(config), SETTLES, 1)
  {
    NotedReceipts(config);
    RowsAnswer(config);
    SecondShare(config);
  }

  const SUMMED: seq<Move> := [Work(0), Work(0)]
  const SETTLED: seq<Move> := SUMMED + [SETTLES]
  const MOVES: seq<Move> := SETTLED + [Work(0)]

  lemma SettlesBeforeApplying(config: Config)
    ensures var w := Play(CALLS, Begun(config), SETTLED, config);
      w.phases == [Summed(2)] && w == Act(CALLS, Summing(config), SETTLES, config)
  {
    SumsFirst(config);
    assert SETTLED[..|SETTLED| - 1] == SUMMED;
  }

  lemma AppliesLast(config: Config)
    ensures Play(CALLS, Begun(config), MOVES, config).phases == [Done]
    ensures LastPayment(CALLS, Begun(config), MOVES, config, 1) == Some(2)
    ensures Play(CALLS, Begun(config), MOVES[..2], config) == Summing(config)
  {
    SumsFirst(config);
    SettlesBeforeApplying(config);
    SettlementHarms(config);
    assert MOVES[..|MOVES| - 1] == SETTLED && SETTLED[..|SETTLED| - 1] == SUMMED && MOVES[..2] == SUMMED;
  }

  lemma PlayLoses(config: Config)
    requires Inv(Billed2(config, true))
    ensures var w := Play(CALLS, Begun(config), MOVES, config);
      w.phases == [Done] && 1 in w.books.entries && !Exact(w.books, 1)
  {
    AppliesLast(config);
    SettlementHarms(config);
    PlayUpToDate(CALLS, Begun(config), MOVES, config, 1);
    AllReceiptsCount(CALLS, Billed2(config, true), MOVES, config, 1);
  }

  /** From books that a run reaches: the call inserts and sums, the settlement pays the entry 1, and the
      call then applies its sum. All calls are done, and the entry has not collected what it should. */
  lemma ReceiptIsLost(config: Config) returns (states: seq<Books>, steps: seq<Step>)
    ensures IsRun(states, steps, config) && Initial(states[0])
    ensures var w := Play(CALLS, World(states[|steps|], seq(|CALLS|, _ => Ready)), MOVES, config);
      w.phases == [Done] && 1 in w.books.entries && !Exact(w.books, 1)
  {
    states, steps := RunsThere(config);
    RunKeeps(states, steps, config, |steps|);
    PlayLoses(config);
  }

  // ---- an entry left behind by its own settlement ----------------------------------------------

  lemma RowsAnswerBefore(config: Config)
    ensures Settleable(Billed2(config, true), 1) && EligibleRows(Billed2(config, true), 1, ROWS)
  {
    assert Eligible(Billed2(config, true), 1, 0) && Eligible(Billed2(config, true), 1, 1);
    assert ROWS[0].invoice == 0 && ROWS[1].invoice == 1;
  }

  /** The older debt of a carried-over cycle takes all but 1 of the price. The newer entry's own cycle is
      paid with the rest of its fee uncollected, and no later settlement can collect it. */
  lemma SettledShort(config: Config) returns (states: seq<Books>, steps: seq<Step>)
    ensures IsRun(states, steps, config) && Initial(states[0])
    ensures var b := states[|steps|];
      && 1 in b.entries && b.entries[1].cycle == Some(1) && RemainingOf(b.entries[1]) == FEE - 1
      && 1 in b.cycles && b.cycles[1].status == Paid && !CanBeSettled(b, 1, config)
  {
    states, steps := RunsThere(config);
    RunKeeps(states, steps, config, |steps|);
    var b := states[|steps|];
    RowsAnswerBefore(config);
    BilledShare(config);
    SettlePays(b, 1, ROWS, 1);
    SettleCycles(b, 1, ROWS);
    states, steps := Extended(states, steps, config, Clear(1, ROWS));
    RunKeeps(states, steps, config, |steps|);
    ReachIff(states[|steps|], 1, config);
  }

  // ---- a paid invoice that settles nothing -----------------------------------------------------

  lemma RunsToCharged(config: Config) returns (states: seq<Books>, steps: seq<Step>)
    ensures IsRun(states, steps, config) && Initial(states[0]) && states[|steps|] == Charged(config)
  {
    states, steps := [Shop(map[], map[], map[])], [];
    OpensFirst(config);
    states, steps := Extended(states, steps, config, OpenNew(0, 0, 0));
    Charges(config);
    states, steps := Extended(states, steps, config, Charge(0, 0, FEE, 0));
  }

  /** The settlement is requested twice; the second invoice is paid in full, and no cycle can be settled. */
  lemma PaidForNothing(config: Config) returns (states: seq<Books>, steps: seq<Step>)
    ensures IsRun(states, steps, config) && Initial(states[0])
    ensures var b := states[|steps|];
      && 1 in b.bills && b.bills[1].price == b.bills[1].received == FEE && b.bills[1].confirmed
      && 0 in b.cycles && b.cycles[0].status == Invoiced && b.cycles[0].outstanding == FEE
      && forall c :: !Settleable(b, c)
  {
    states, steps := RunsToCharged(config);
    states, steps := Extended(states, steps, config, Request(0, 0, 0, 0));
    RunKeeps(states, steps, config, |steps|);
    RequestedInvoiceIsLinkedIff(states[|steps|], 0, 1, 0, 0);
    states, steps := Extended(states, steps, config, Request(0, 1, 0, 0));
    states, steps := Extended(states, steps, config, Pay(1, FEE, true));
  }

  /** The first cycle once its settlement was requested at instant 0. */
  function Asked(config: Config, auto: int, status: Status, paid: bool): Books {
    Books(map[0 := FirstEntry(auto)], if auto == 0 then map[] else ONE_RECEIPT,
          map[0 := Cycle(0, FirstEnd(config), FEE, auto, FEE - auto, status, Some(0), Some(7 * DAY))], SHOP,
          map[0 := Bill(FEE, if paid then FEE else 0, paid, 0, 0)], map[0 := 0])
  }

  lemma Asks(config: Config)
    ensures RequestSettlement(Charged(config), 0, 0, 0, 0) == Asked(config, 0, Invoiced, false)
  {
  }

  lemma AskedNibbles(config: Config)
    ensures RecordReceipt(Asked(config, 0, Invoiced, false), 0, "t", 1) == Asked(config, 1, Invoiced, false)
  {
    var none: map<(Id, Source), int> := map[];
    ReceivedWrite(none, (0, Chain("t")), 1, 0);
    assert ReceiptsOf(none, 0) == map[] && none[(0, Chain("t")) := 1] == ONE_RECEIPT;
    assert InsertReceipt(Asked(config, 0, Invoiced, false), 0, Chain("t"), 1).receipts == ONE_RECEIPT;
  }

  lemma AskedCarriesOver(config: Config)
    ensures Overdue(Asked(config, 1, Invoiced, false), 0, 7 * DAY + 1) == Asked(config, 1, CarriedOver, false)
  {
  }

  /** An open cycle's settlement is requested and the invoice linked. A receipt brings the debt under the
      minimum, the grace period ends, and the invoice is paid in full too late: the cycle was carried over. */
  lemma PaidTooLate(config: Config) returns (states: seq<Books>, steps: seq<Step>)
    ensures IsRun(states, steps, config) && Initial(states[0])
    ensures var b := states[|steps|];
      && 0 in b.bills && b.bills[0].price == b.bills[0].received == FEE && b.bills[0].confirmed
      && BilledBy(b.cycles, 0, 0) && b.cycles[0].status == CarriedOver && b.cycles[0].outstanding == FEE - 1
      && forall c :: !Settleable(b, c)
  {
    states, steps := RunsToCharged(config);
    Asks(config);
    states, steps := Extended(states, steps, config, Request(0, 0, 0, 0));
    AskedNibbles(config);
    states, steps := Extended(states, steps, config, Receive(0, "t", 1));
    AskedCarriesOver(config);
    states, steps := Extended(states, steps, config, MarkOverdue(0, 7 * DAY + 1));
    states, steps := Extended(states, steps, config, Pay(0, FEE, true));
  }
}
