/** Runs in which passes overlap and a write comes late. */
module OverlapRuns {
  import opened Sums
  import opened Books
  import opened BooksInvariant
  import opened CycleWorkflow
  import opened Settlements
  import opened BillingRuns
  import opened MerchantDebt
  import opened LateWrites
  import F = FailingRuns

  // ---- two openings at once ---------------------------------------------------------------------

  /** The shop with 1 carried over, as two openings have looked, summed, inserted and zeroed. */
  function Carried(config: Config, left: int): Cycle { FirstCycle(config, 1, left, CarriedOver) }

  function New(config: Config): Cycle { Cycle(0, config.newDays * DAY, 1, 0, 1, Open, None, None) }

  const ENTRIES: map<Id, Entry> := map[0 := Entry(0, 1, 0, false, Some(0), 0)]

  function Stage0(config: Config): Books { Shop(ENTRIES, map[0 := Carried(config, 1)], map[0 := 0]) }

  function Stage1(config: Config): Books {
    Shop(ENTRIES, map[0 := Carried(config, 1), 1 := New(config)], map[0 := 0, 1 := 1])
  }

  function Stage2(config: Config, left: int): Books {
    Shop(ENTRIES, map[0 := Carried(config, left), 1 := New(config), 2 := New(config)], map[0 := 0, 1 := 1, 2 := 1])
  }

  lemma NothingOpen(config: Config)
    ensures OpenCycle(Stage0(config).cycles, 0).None?
  {
  }

  lemma OneCarried(config: Config)
    ensures Total(CarriedOverOf(Stage0(config).cycles, 0)) == 1
  {
    var none: map<Id, int> := map[];
    assert CarriedOverOf(Stage0(config).cycles, 0) == none[0 := 1];
    TotalWrite(none, 0, 1);
  }

  lemma Inserts(config: Config)
    ensures InsertCycle(Stage0(config), 0, 1, config.newDays * DAY, 1) == Stage1(config)
    ensures InsertCycle(Stage1(config), 0, 2, config.newDays * DAY, 1) == Stage2(config, 1)
  {
  }

  lemma Zeroes(config: Config)
    ensures ZeroCarried(Stage2(config, 1), 0) == Stage2(config, 0) && ZeroCarried(Stage2(config, 0), 0) == Stage2(config, 0)
  {
    assert Zeroed(Stage2(config, 1).cycles, 0) == Stage2(config, 0).cycles;
    assert Zeroed(Stage2(config, 0).cycles, 0) == Stage2(config, 0).cycles;
  }

  lemma TwoOwed(config: Config)
    ensures Total(OutstandingOf(Stage2(config, 0).cycles, 0)) == 2 && Total(Uncollected(ENTRIES, 0)) == 1
  {
    var none: map<Id, int> := map[];
    assert OutstandingOf(Stage2(config, 0).cycles, 0) == none[0 := 0][1 := 1][2 := 1];
    TotalWrite(none, 0, 0);
    TotalWrite(none[0 := 0], 1, 1);
    TotalWrite(none[0 := 0][1 := 1], 2, 1);
    assert Uncollected(ENTRIES, 0) == none[0 := 1];
    TotalWrite(none, 0, 1);
  }

  lemma BothSum(config: Config) returns (worlds: seq<World>, events: seq<Event>)
    requires Inv(Stage0(config))
    ensures IsOverlap(worlds, events, config) && worlds[0] == World(Stage0(config), map[])
    ensures worlds[|events|] == World(Stage0(config), map[1 := Summed(0, config.newDays, 1), 2 := Summed(0, config.newDays, 1)])
  {
    worlds, events := [World(Stage0(config), map[])], [];
    NothingOpen(config);
    OneCarried(config);
    worlds, events := Prolonged(worlds, events, config, Look(1, 0));
    worlds, events := Prolonged(worlds, events, config, Look(2, 0));
    worlds, events := Prolonged(worlds, events, config, LateWrites.Sum(1));
    worlds, events := Prolonged(worlds, events, config, LateWrites.Sum(2));
  }

  lemma BothWrite(config: Config) returns (worlds: seq<World>, events: seq<Event>)
    requires Inv(Stage0(config))
    ensures IsOverlap(worlds, events, config) && worlds[0] == World(Stage0(config), map[])
    ensures worlds[|events|].books == Stage2(config, 0)
  {
    worlds, events := BothSum(config);
    Inserts(config);
    worlds, events := Prolonged(worlds, events, config, Insert(1, 1, 0));
    assert worlds[|events|] == World(Stage1(config), map[1 := Inserted(0), 2 := Summed(0, config.newDays, 1)]);
    worlds, events := Prolonged(worlds, events, config, Insert(2, 2, 0));
    assert worlds[|events|] == World(Stage2(config, 1), map[1 := Inserted(0), 2 := Inserted(0)]);
    Zeroes(config);
    worlds, events := Prolonged(worlds, events, config, Zero(1));
    worlds, events := Prolonged(worlds, events, config, Zero(2));
  }

  /** Both openings look and sum before either writes: the merchant has two open cycles, and owes 2 where
      it owed 1. */
  lemma OpenedTwice(config: Config) returns (states: seq<Books>, steps: seq<Step>, worlds: seq<World>, events: seq<Event>)
    ensures IsRun(states, steps, config) && Initial(states[0])
    ensures IsOverlap(worlds, events, config) && worlds[0].books == states[|steps|]
    ensures var b := worlds[|events|].books;
      && IsOpenFor(b.cycles, 0, 1) && IsOpenFor(b.cycles, 0, 2)
      && Total(OutstandingOf(b.cycles, 0)) == 2 && Total(Uncollected(b.entries, 0)) == 1
  {
    states, steps := ShopCarriesOver(config);
    RunKeeps(states, steps, config, |steps|);
    worlds, events := BothWrite(config);
    TwoOwed(config);
  }

  // ---- a status decided before a settlement and written after it -------------------------------

  const ROWS := [Row(0, F.FEE)]

  function Payable0(config: Config): Books {
    F.Asked(config, 0, Invoiced, false).(bills := map[0 := Bill.Bill(F.FEE, F.FEE, true, 0, 0)])
  }

  lemma IsAnswer(config: Config)
    ensures Settleable(Payable0(config), 0) && EligibleRows(Payable0(config), 0, ROWS)
  {
    assert Eligible(Payable0(config), 0, 0) && ROWS[0].invoice == 0;
  }

  lemma IsPaidInFull(config: Config)
    ensures BillPayment(F.Asked(config, 0, Invoiced, false), 0, F.FEE, true) == Payable0(config)
  {
  }

  lemma AskedRuns(config: Config) returns (states: seq<Books>, steps: seq<Step>)
    ensures IsRun(states, steps, config) && Initial(states[0]) && states[|steps|] == F.Asked(config, 0, Invoiced, false)
  {
    states, steps := F.RunsToCharged(config);
    F.Asks(config);
    states, steps := Extended(states, steps, config, Request(0, 0, 0, 0));
  }

  lemma FetchedThenSettled(config: Config) returns (worlds: seq<World>, events: seq<Event>)
    requires Inv(F.Asked(config, 0, Invoiced, false))
    ensures IsOverlap(worlds, events, config) && worlds[0] == World(F.Asked(config, 0, Invoiced, false), map[])
    ensures worlds[|events|] == World(Settle(Payable0(config), 0, ROWS), map[1 := Fetched(0, 0, PastDue)])
    ensures EligibleRows(Payable0(config), 0, ROWS)
  {
    worlds, events := [World(F.Asked(config, 0, Invoiced, false), map[])], [];
    worlds, events := Prolonged(worlds, events, config, FetchOverdue(1, 0, 7 * DAY + 1));
    worlds, events := Prolonged(worlds, events, config, Whole(Pay(0, F.FEE, true)));
    IsPaidInFull(config);
    assert worlds[|events|] == World(Payable0(config), map[1 := Fetched(0, 0, PastDue)]);
    IsAnswer(config);
    worlds, events := Prolonged(worlds, events, config, Whole(Clear(0, ROWS)));
  }

  /** The overdue pass fetches the row, the invoice is paid and the cycle settled, and the pass then marks
      it past due: the paid cycle can be settled once more with the same invoice, and its sums are wrong. */
  lemma MarkedAfterPaying(config: Config) returns (states: seq<Books>, steps: seq<Step>, worlds: seq<World>, events: seq<Event>)
    ensures IsRun(states, steps, config) && Initial(states[0])
    ensures IsOverlap(worlds, events, config) && worlds[0].books == states[|steps|]
    ensures var b := worlds[|events|].books;
      && Settleable(b, 0) && b.cycles[0].bill == Some(0) && (0, Settlement(0)) in b.receipts
      && b.cycles[0].outstanding == 0 && b.cycles[0].total - b.cycles[0].auto == F.FEE
  {
    states, steps := AskedRuns(config);
    RunKeeps(states, steps, config, |steps|);
    worlds, events := FetchedThenSettled(config);
    SettledBooks(config);
    worlds, events := Prolonged(worlds, events, config, WriteStatus(1));
  }

  lemma SettledBooks(config: Config)
    requires EligibleRows(Payable0(config), 0, ROWS)
    ensures var b := Settle(Payable0(config), 0, ROWS);
      && 0 in b.cycles && b.cycles[0] == Payable0(config).cycles[0].(status := Paid, outstanding := 0)
      && b.bills == Payable0(config).bills && (0, Settlement(0)) in b.receipts
  {
    var b := Payable0(config);
    IsAnswer(config);
    assert Budget(b, 0) == F.FEE && ROWS[0] == Row(0, F.FEE) && ROWS[1..] == [];
    var paid := PayRow(Claim(b, 0), 0, F.FEE, 0);
    assert Payout(Claim(b, 0), ROWS, F.FEE, 0) == Payout(paid, ROWS[1..], 0, 0) == paid;
  }
}
