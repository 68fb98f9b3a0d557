/** The database as the program updates it. Each method is one transaction (or one pass over
    fetched rows), proved against the transaction's meaning on table values. */
module Store {
  import opened Sums
  import opened Books
  import opened BooksInvariant
  import opened CycleWorkflow
  import opened Settlements
  import opened BillingRuns
  import opened SwapFees

  class Database {
    var entries: map<Id, Entry>
    var receipts: map<(Id, Source), int>
    var cycles: map<Id, Cycle>
    var merchants: map<Id, Merchant>
    var bills: map<Id, Bill>
    var attempts: set<Id>
    var fees: map<Id, FeeRow>
    var deferred: map<Id, Deferred>
    var settlements: set<Id>
    /** History: the debt each cycle was opened with. */
    ghost var carried: map<Id, int>
    /** The reconciliations in flight, which live outside the database. */
    ghost var workers: map<Id, Worker>

    ghost function Billing(): Books
      reads this
    {
      Books(entries, receipts, cycles, merchants, bills, carried)
    }

    ghost function Swapping(): Swaps
      reads this
    {
      Swaps(attempts, fees, deferred, settlements, workers)
    }

    ghost function State(): System
      reads this
    {
      System(Billing(), Swapping())
    }

    ghost predicate Valid()
      reads this
    {
      Inv(Billing())
    }

    /** A fresh identifier, as a random UUID is. */
    method NewId(taken: set<Id>) returns (id: Id)
      ensures id !in taken
    {
      id := 0;
      var rest := taken;
      while rest != {}
        invariant rest <= taken
        invariant forall k :: k in taken && k !in rest ==> k < id
        decreases |rest|
      {
        var k :| k in rest;
        rest := rest - {k};
        if id <= k {
          id := k + 1;
        }
      }
    }

    method FindOpen(m: Id) returns (c: Option<Id>)
      requires Valid()
      ensures c == OpenCycle(cycles, m)
    {
      c := None;
      var rest := cycles.Keys;
      while rest != {}
        invariant rest <= cycles.Keys
        invariant c.None? ==> forall d :: d in cycles && d !in rest ==> !IsOpenFor(cycles, m, d)
        invariant c.Some? ==> IsOpenFor(cycles, m, c.value)
        decreases |rest|
      {
        var d :| d in rest;
        rest := rest - {d};
        if IsOpenFor(cycles, m, d) {
          c := Some(d);
        }
      }
    }

    // ---- fee ledger -------------------------------------------------------------------------

    method CreateFeeEntry(i: Id, m: Id, amount: nat, now: int)
      requires Valid()
      modifies this`entries, this`cycles, this`deferred
      ensures Valid() && State() == CreateFee(old(State()), i, m, amount, now)
    {
      ghost var y := State();
      InsertEntryKeeps(y.books, i, m, amount, now);
      if i in settlements {
        return;
      }
      var unresolved := (i in attempts || i in fees) && !(i in deferred && deferred[i].duty == DueDirect);
      if unresolved {
        if i !in deferred {
          deferred := deferred[i := Deferred(m, amount, Verifying)];
        }
        return;
      }
      if i !in entries {
        var open := FindOpen(m);
        entries := entries[i := Entry(m, amount, 0, false, open, now)];
        if open.Some? {
          var r := cycles[open.value];
          cycles := cycles[open.value := r.(total := r.total + amount, outstanding := r.outstanding + amount)];
        }
      }
    }

    method ApplyReceived(i: Id, received: int)
      requires Valid() && received <= Received(receipts, i)
      modifies this`entries, this`cycles
      ensures Valid() && Billing() == ApplyCollected(old(Billing()), i, received)
    {
      ApplyCollectedKeeps(Billing(), i, received);
      if i in entries {
        var e := entries[i];
        var collected := Max(Min(received, e.fee), e.collected);
        var delta := collected - e.collected;
        entries := entries[i := e.(collected := collected, auto := collected >= e.fee)];
        if e.cycle.Some? && e.cycle.value in cycles {
          var r := cycles[e.cycle.value];
          cycles := cycles[e.cycle.value := r.(auto := r.auto + delta, outstanding := Max(0, r.outstanding - delta))];
        }
      }
    }

    /** Insert, sum, apply. Fails, changing nothing, on a receipt of no units. */
    method RecordDirectReceipt(i: Id, source: Source, units: int) returns (ok: bool)
      requires Valid() && (source.Settlement? ==> (i, source) in receipts)
      modifies this`entries, this`cycles, this`receipts
      ensures Valid() && ok == (0 < units)
      ensures source.Chain? ==> Billing() == RecordReceipt(old(Billing()), i, source.txid, units)
      ensures ok ==> Exact(Billing(), i) && (i, source) in receipts
      ensures (i, source) in old(receipts) && ok ==> Billing() == ApplyCollected(old(Billing()), i, Received(old(receipts), i))
    {
      if units <= 0 {
        return false;
      }
      if (i, source) !in receipts {
        InsertReceiptKeeps(Billing(), i, source.txid, units);
        receipts := receipts[(i, source) := units];
      }
      var total := SumRows(ReceiptsOf(receipts, i));
      assert EntryOk(Billing(), i);
      ApplyReceived(i, total);
      return true;
    }

    // ---- billing cycles -----------------------------------------------------------------------

    /** Fails for an unknown merchant, as the tier query does. */
    method EnsureBillingCycle(m: Id, now: int, config: Config) returns (id: Id)
      requires Valid()
      modifies this`cycles, this`carried
      ensures Valid() && id !in old(cycles) && Billing() == EnsureCycle(old(Billing()), m, id, now, config)
    {
      id := NewId(cycles.Keys);
      EnsureCycleKeeps(Billing(), m, id, now, config);
      var existing := FindOpen(m);
      if existing.Some? || m !in merchants {
        return;
      }
      var days := if merchants[m].tier == New then config.newDays else config.standardDays;
      var debt := SumRows(CarriedOverOf(cycles, m));
      var kept := cycles;
      if debt > 0 {
        kept := Zeroed(cycles, m);
      }
      cycles := kept[id := Cycle(m, now + days * DAY, debt, 0, debt, Open, None, None)];
      carried := carried[id := debt];
    }

    /** The status an expired open cycle is closed with. */
    static function ClosedAs(outstanding: int): Status {
      if outstanding <= 0 then Paid else if outstanding < MIN_SETTLEMENT then CarriedOver else Invoiced
    }

    ghost predicate ClosedRight(c: Id, outstanding: int)
      reads this
    {
      && c in cycles && cycles[c].status == ClosedAs(outstanding)
      && (cycles[c].status == Invoiced ==>
        && cycles[c].bill.Some? && cycles[c].bill.value in bills
        && bills[cycles[c].bill.value].price == cycles[c].outstanding == outstanding)
    }

    /** The clock: whatever it shows, it does not go back. */
    method ReadClock(earlier: int) returns (now: int)
      ensures earlier <= now
    {
      now :| earlier <= now;
    }

    method CloseOne(c: Id, now: int) returns (ghost bill: Id, ghost begun: int, ghost stamp: int)
      requires Valid() && c in cycles && cycles[c].status == Open && cycles[c].periodEnd < now
      modifies this`cycles, this`bills
      ensures Valid() && now <= begun <= stamp && Billing() == CloseCycle(old(Billing()), c, bill, now, begun, stamp)
      ensures ClosedRight(c, old(cycles)[c].outstanding)
      ensures cycles == old(cycles)[c := cycles[c]] && cycles[c].merchant == old(cycles)[c].merchant
      ensures cycles[c].outstanding == old(cycles)[c].outstanding
      ensures forall s :: s in old(bills) ==> s in bills && bills[s] == old(bills)[s]
    {
      assert CycleOk(Billing(), c);
      var owed := cycles[c].outstanding;
      bill, begun, stamp := 0, now, now;
      if owed <= 0 {
        CloseCycleKeeps(Billing(), c, bill, now, begun, stamp);
        cycles := cycles[c := cycles[c].(status := Paid)];
      } else if owed < MIN_SETTLEMENT {
        CloseCycleKeeps(Billing(), c, bill, now, begun, stamp);
        cycles := cycles[c := cycles[c].(status := CarriedOver)];
      } else {
        var clock := ReadClock(now);
        var created := ReadClock(clock);
        var id := NewId(bills.Keys);
        bill, begun, stamp := id, clock, created;
        CloseCycleKeeps(Billing(), c, bill, now, begun, stamp);
        var grace := clock + GraceDays(merchants[cycles[c].merchant].tier) * DAY;
        bills := bills[id := Bill.Bill(owed, 0, false, created, clock)];
        cycles := cycles[c := cycles[c].(status := Invoiced, bill := Some(id), grace := Some(grace))];
      }
    }

    /** Absorbing carried-over debt may empty a carried-over cycle; nothing else changes. */
    static predicate KeptOrEmptied(r: Cycle, r': Cycle) {
      r' == r || (r.status == CarriedOver && r' == r.(outstanding := 0))
    }

    method Reopen(m: Id, now: int, config: Config)
      requires Valid() && m in merchants
      modifies this`cycles, this`carried
      ensures Valid() && SomeOpen(cycles, m)
      ensures forall d :: d in old(cycles) ==> d in cycles && KeptOrEmptied(old(cycles)[d], cycles[d])
      ensures forall n :: Total(OutstandingOf(cycles, n)) == Total(OutstandingOf(old(cycles), n))
    {
      ghost var b := Billing();
      var id := EnsureBillingCycle(m, now, config);
      Reopens(b, m, id, now, config);
      forall n: Id
        ensures Total(OutstandingOf(cycles, n)) == Total(OutstandingOf(b.cycles, n))
      {
        CarryOverConserves(b, m, id, now, config, n);
      }
    }

    method CloseAndReopen(c: Id, now: int, config: Config)
      requires Valid() && c in cycles && Expired(cycles[c], now)
      modifies this`cycles, this`bills, this`carried
      ensures Valid() && ClosedRight(c, old(cycles)[c].outstanding) && SomeOpen(cycles, old(cycles)[c].merchant)
      ensures forall d, owed :: d != c && old(ClosedRight(d, owed)) ==> ClosedRight(d, owed)
      ensures forall m :: SomeOpen(old(cycles), m) ==> SomeOpen(cycles, m)
      ensures forall d :: d in old(cycles) && d != c ==> d in cycles && KeptOrEmptied(old(cycles)[d], cycles[d])
      ensures forall m :: Total(OutstandingOf(cycles, m)) == Total(OutstandingOf(old(cycles), m))
    {
      ghost var start := cycles;
      assert CycleOk(Billing(), c);
      ghost var bill, begun, stamp := CloseOne(c, now);
      SameDebts(start, cycles, c);
      var clock := ReadClock(now);
      Reopen(cycles[c].merchant, clock, config);
      StillOpen(start, cycles, c);
    }

    static predicate Expired(r: Cycle, now: int) { r.status == Open && r.periodEnd < now }

    /** First pass of billing: close every expired open cycle by what it owes, and give its merchant
        a new one. No merchant's debt changes. */
    method CloseExpired(now: int, config: Config)
      requires Valid()
      modifies this`cycles, this`bills, this`carried
      ensures Valid()
      ensures forall c :: c in old(cycles) && Expired(old(cycles)[c], now) ==>
        ClosedRight(c, old(cycles)[c].outstanding) && SomeOpen(cycles, old(cycles)[c].merchant)
      ensures forall c :: c in old(cycles) && !Expired(old(cycles)[c], now) ==> c in cycles && KeptOrEmptied(old(cycles)[c], cycles[c])
      ensures forall m :: Total(OutstandingOf(cycles, m)) == Total(OutstandingOf(old(cycles), m))
    {
      ghost var start := cycles;
      var rest := set c | c in cycles && Expired(cycles[c], now);
      ghost var expired := rest;
      while rest != {}
        invariant Valid() && rest <= expired
        invariant forall c :: c in rest ==> c in cycles && cycles[c] == start[c]
        invariant forall c :: c in expired && c !in rest ==> ClosedRight(c, start[c].outstanding) && SomeOpen(cycles, start[c].merchant)
        invariant forall c :: c in start && c !in expired ==> c in cycles && KeptOrEmptied(start[c], cycles[c])
        invariant forall m :: Total(OutstandingOf(cycles, m)) == Total(OutstandingOf(start, m))
        decreases |rest|
      {
        var c :| c in rest;
        rest := rest - {c};
        CloseAndReopen(c, now, config);
      }
    }

    /** Writes what was decided on the fetched row. */
    method OverdueOne(c: Id, row: Cycle, now: int)
      requires Valid() && c in cycles && row == cycles[c] && GraceOver(row, now)
      modifies this`cycles, this`merchants
      ensures Valid() && Billing() == Overdue(old(Billing()), c, now)
      ensures cycles == old(cycles)[c := OverdueRow(row, now)] && row.merchant in old(merchants)
      ensures merchants == old(merchants)[row.merchant := old(merchants)[row.merchant].(standing := OverdueStanding(row))]
    {
      OverdueKeeps(Billing(), c, now);
      assert CycleOk(Billing(), c);
      var small := row.outstanding < MIN_SETTLEMENT;
      cycles := cycles[c := cycles[c].(status := if small then CarriedOver else PastDue)];
      merchants := merchants[row.merchant := merchants[row.merchant].(standing := if small then Active else Late)];
    }

    /** Second pass: rows of invoiced cycles past their grace are fetched, then each is carried over if it
        owed too little, else past due, and its merchant's standing follows. */
    method MarkOverdueCycles(now: int)
      requires Valid()
      modifies this`cycles, this`merchants
      ensures Valid() && OverdueBut(old(cycles), old(merchants), {}, cycles, merchants, now)
    {
      ghost var start, shops := cycles, merchants;
      var rows := map c | c in cycles && GraceOver(cycles[c], now) :: cycles[c];
      var rest := rows.Keys;
      while rest != {}
        invariant Valid() && rest <= cycles.Keys && rest <= rows.Keys && OverdueBut(start, shops, rest, cycles, merchants, now)
        invariant forall c :: c in rest ==> rows[c] == start[c] && GraceOver(rows[c], now)
        decreases |rest|
      {
        var c :| c in rest;
        assert CycleOk(Billing(), c);
        OverdueNext(start, shops, rest, c, cycles, merchants, now);
        rest := rest - {c};
        OverdueOne(c, rows[c], now);
      }
    }

    static predicate GraceOver(r: Cycle, now: int) {
      r.status == Invoiced && r.grace.Some? && r.grace.value < now
    }

    static function OverdueRow(r: Cycle, now: int): Cycle {
      if !GraceOver(r, now) then r
      else r.(status := if r.outstanding < MIN_SETTLEMENT then CarriedOver else PastDue)
    }

    static function OverdueStanding(r: Cycle): Standing { if r.outstanding < MIN_SETTLEMENT then Active else Late }

    /** The cycle is one of the merchant's, past its grace and dealt with. */
    static predicate Chased(start: map<Id, Cycle>, rest: set<Id>, m: Id, now: int, c: Id) {
      c in start && c !in rest && GraceOver(start[c], now) && start[c].merchant == m
    }

    /** A merchant's row after the pass has dealt with every cycle past its grace outside `rest`: as one of
        them demands, the last one visited, or untouched if there is none. */
    static ghost predicate StandingFollows(start: map<Id, Cycle>, rest: set<Id>, m: Id, now: int, before: Merchant, after: Merchant) {
      || (after == before && forall c :: !Chased(start, rest, m, now, c))
      || exists c :: Chased(start, rest, m, now, c) && after == before.(standing := OverdueStanding(start[c]))
    }

    /** The tables after the pass has dealt with every cycle past its grace outside `rest`. */
    static ghost predicate OverdueBut(start: map<Id, Cycle>, shops: map<Id, Merchant>, rest: set<Id>,
                                      cycles: map<Id, Cycle>, merchants: map<Id, Merchant>, now: int)
    {
      && cycles.Keys == start.Keys && merchants.Keys == shops.Keys
      && (forall c :: c in start ==> cycles[c] == if c in rest then start[c] else OverdueRow(start[c], now))
      && (forall m :: m in shops ==> StandingFollows(start, rest, m, now, shops[m], merchants[m]))
    }

    /** Decides on the fetched row and today's tier, and writes. */
    method SuspendOne(c: Id, row: Cycle, now: int)
      requires Valid() && c in cycles && row == cycles[c] && row.status == PastDue
      modifies this`cycles, this`merchants
      ensures Valid() && Billing() == Suspend(old(Billing()), c, now)
      ensures cycles == old(cycles)[c := SuspendRow(row, old(merchants), now)]
      ensures merchants == if Suspends(row, old(merchants), now)
        then old(merchants)[row.merchant := old(merchants)[row.merchant].(standing := Blocked)] else old(merchants)
    {
      SuspendKeeps(Billing(), c, now);
      assert CycleOk(Billing(), c);
      var m := row.merchant;
      if row.grace.Some? && now > row.grace.value + SuspendDays(merchants[m].tier) * DAY {
        cycles := cycles[c := cycles[c].(status := Suspended)];
        merchants := merchants[m := merchants[m].(standing := Blocked)];
      }
    }

    /** Third pass: rows of past-due cycles are fetched, then each is suspended once its merchant's extra
        days are over, and only then is a merchant blocked. */
    method SuspendCycles(now: int)
      requires Valid()
      modifies this`cycles, this`merchants
      ensures Valid() && SuspendedBut(old(cycles), old(merchants), {}, cycles, merchants, now)
    {
      ghost var start, shops := cycles, merchants;
      var rows := map c | c in cycles && cycles[c].status == PastDue :: cycles[c];
      var rest := rows.Keys;
      while rest != {}
        invariant Valid() && rest <= cycles.Keys && rest <= rows.Keys && SuspendedBut(start, shops, rest, cycles, merchants, now)
        invariant forall c :: c in rest ==> rows[c] == start[c] && rows[c].status == PastDue
        decreases |rest|
      {
        var c :| c in rest;
        SuspendedOne(start, shops, rest, c, cycles, merchants, now);
        rest := rest - {c};
        SuspendOne(c, rows[c], now);
      }
    }

    /** The tables after the pass has dealt with every past-due cycle outside `rest`. */
    static ghost predicate SuspendedBut(start: map<Id, Cycle>, shops: map<Id, Merchant>, rest: set<Id>,
                                        cycles: map<Id, Cycle>, merchants: map<Id, Merchant>, now: int)
    {
      && cycles.Keys == start.Keys && merchants.Keys == shops.Keys
      && (forall c :: c in start ==> cycles[c] == if c in rest then start[c] else SuspendRow(start[c], shops, now))
      && (forall m :: m in shops ==> merchants[m] == if LosesAccess(start, rest, shops, m, now) then shops[m].(standing := Blocked) else shops[m])
    }

    static predicate Suspends(r: Cycle, merchants: map<Id, Merchant>, now: int) {
      && r.status == PastDue && r.grace.Some? && r.merchant in merchants
      && now > r.grace.value + SuspendDays(merchants[r.merchant].tier) * DAY
    }

    static function SuspendRow(r: Cycle, merchants: map<Id, Merchant>, now: int): Cycle {
      if Suspends(r, merchants, now) then r.(status := Suspended) else r
    }

    /** Some cycle of the merchant, those in `but` aside, is suspended now. */
    static predicate LosesAccess(cycles: map<Id, Cycle>, but: set<Id>, merchants: map<Id, Merchant>, m: Id, now: int) {
      exists c <- cycles.Keys - but :: Suspends(cycles[c], merchants, now) && cycles[c].merchant == m
    }

    // ---- settlement ---------------------------------------------------------------------------

    /** The first row of the settlement query's order. */
    method Oldest(ids: set<Id>) returns (first: Id)
      requires ids != {} && ids <= entries.Keys
      ensures first in ids && forall j :: j in ids && j != first ==> Before(entries, first, j)
    {
      first :| first in ids;
      var rest := ids - {first};
      while rest != {}
        invariant first in ids && first !in rest && rest <= ids
        invariant forall j :: j in ids && j !in rest && j != first ==> Before(entries, first, j)
        decreases |rest|
      {
        var j :| j in rest;
        rest := rest - {j};
        if Before(entries, j, first) {
          first := j;
        }
      }
    }

    /** `... ORDER BY f.created_at, f.invoice_id` over the eligible entries. */
    method QueryEligible(c: Id) returns (rows: seq<Row>)
      requires c in cycles
      ensures EligibleRows(Billing(), c, rows)
    {
      rows := [];
      var open := set i | i in entries && EligibleNow(c, i);
      var rest := open;
      while rest != {}
        invariant rest <= open
        invariant forall k :: 0 <= k < |rows| ==> rows[k].invoice in open && rows[k].invoice !in rest
        invariant forall k :: 0 <= k < |rows| ==> rows[k].invoice in entries && rows[k].remaining == RemainingOf(entries[rows[k].invoice])
        invariant forall i :: i in open && i !in rest ==> exists k :: 0 <= k < |rows| && rows[k].invoice == i
        invariant forall k, i :: 0 <= k < |rows| && i in rest ==> Before(entries, rows[k].invoice, i)
        invariant forall j, k :: 0 <= j < k < |rows| ==> Before(entries, rows[j].invoice, rows[k].invoice)
        decreases |rest|
      {
        var first := Oldest(rest);
        ghost var before := rows;
        rows := rows + [Row(first, entries[first].fee - entries[first].collected)];
        rest := rest - {first};
        assert rows[|before|].invoice == first;
        assert forall k :: 0 <= k < |before| ==> rows[k] == before[k];
      }
      assert forall i :: i in entries && Eligible(Billing(), c, i) ==> i in open;
    }

    predicate EligibleNow(c: Id, i: Id)
      requires c in cycles
      reads this
      ensures EligibleNow(c, i) <==> Eligible(Billing(), c, i)
    {
      && i in entries
      && entries[i].merchant == cycles[c].merchant
      && entries[i].cycle.Some? && entries[i].cycle.value in cycles
      && (entries[i].cycle.value == c || cycles[entries[i].cycle.value].status == CarriedOver)
      && entries[i].fee > entries[i].collected
    }

    /** The allocation loop. */
    method Allocate(due: seq<Row>, total: int, bill: Id)
      requires forall r <- due :: r.invoice in entries
      modifies this`entries, this`receipts
      ensures Billing() == Payout(old(Billing()), due, total, bill)
    {
      var budget, k := total, 0;
      ghost var start := Billing();
      while k < |due|
        invariant k <= |due|
        invariant forall r <- due :: r.invoice in entries
        invariant Payout(Billing(), due[k..], budget, bill) == Payout(start, due, total, bill)
      {
        var units := Min(due[k].remaining, budget);
        assert due[k..][0] == due[k] && due[k..][1..] == due[k + 1..];
        assert due[k] in due;
        if units <= 0 {
          break;
        }
        budget := budget - units;
        receipts := receipts[(due[k].invoice, Settlement(bill)) := units];
        entries := entries[due[k].invoice := entries[due[k].invoice].(collected := entries[due[k].invoice].collected + units)];
        k := k + 1;
      }
    }

    /** Claim the cycle, pay its entries oldest first until the budget is gone, restore the merchant. */
    method SettleCycle(c: Id) returns (ghost rows: seq<Row>)
      requires Valid()
      modifies this`entries, this`receipts, this`cycles, this`merchants
      ensures Valid()
      ensures !Settleable(old(Billing()), c) ==> Billing() == old(Billing())
      ensures Settleable(old(Billing()), c) ==>
        EligibleRows(old(Billing()), c, rows) && Billing() == Settle(old(Billing()), c, rows)
    {
      rows := [];
      if c !in cycles || !Billed(cycles[c].status) || cycles[c].bill.None? || cycles[c].bill.value !in bills {
        return;
      }
      var bill, m := cycles[c].bill.value, cycles[c].merchant;
      if !bills[bill].confirmed || bills[bill].received < bills[bill].price {
        return;
      }
      ghost var start := Billing();
      cycles := cycles[c := cycles[c].(status := Paid, outstanding := 0)];
      var due := QueryEligible(c);
      rows := due;
      ClaimKeepsEligible(start, c, due);
      SettleKeeps(start, c, due);
      assert forall r <- due :: r.invoice in entries;
      Allocate(due, Min(bills[bill].received, bills[bill].price), bill);
      if m in merchants {
        merchants := merchants[m := merchants[m].(standing := Active)];
      }
    }

    // ---- swaps --------------------------------------------------------------------------------

    /** Refused when an attempt exists, or when a fee would be reserved for an invoice already billed. */
    method ReserveSwap(i: Id, mode: Option<bool>) returns (reserved: bool)
      requires Valid()
      modifies this`attempts, this`fees
      ensures Valid() && State() == SwapFees.Reserve(old(State()), i, mode)
      ensures reserved <==> State() != old(State())
    {
      if i in attempts || (mode.Some? && (i in entries || i in fees)) {
        return false;
      }
      attempts := attempts + {i};
      if mode.Some? {
        fees := fees[i := FeeRow(mode.value, Reserved)];
      }
      return true;
    }

    method ResolveAsDirect(i: Id, now: int)
      requires Valid()
      modifies this`entries, this`cycles, this`deferred, this`receipts, this`fees
      ensures Valid() && State() == ResolveDirect(old(State()), i, now)
    {
      ghost var y := State();
      ResolveKeepsBooks(y, i, now);
      if i in deferred && deferred[i].duty != DueCrosschain {
        var d := deferred[i];
        deferred := deferred[i := d.(duty := DueDirect)];
        CreateFeeEntry(i, d.merchant, d.amount, now);
        ReplayReceipts(i);
      }
      if i in fees && fees[i].state != Collected && fees[i].state != ProviderHandled {
        fees := fees[i := fees[i].(state := Direct)];
      }
    }

    /** The settlement transaction of reconciliation `w`. Only confidential fees look at the fee
        state again; only public fees stay in flight to be recorded. */
    method CommitSettlement(i: Id, ghost w: Id)
      requires w in workers && workers[w].invoice == i
      modifies this`settlements, this`deferred, this`fees, this`workers
      ensures State() == SettleSwap(old(State()), w)
    {
      if i in fees && fees[i].confidential && Terminal(fees[i].state) {
        workers := workers - {w};
        return;
      }
      settlements := settlements + {i};
      if i in deferred {
        deferred := deferred[i := deferred[i].(duty := DueCrosschain)];
      }
      if i !in fees {
        workers := workers - {w};
      } else if fees[i].confidential {
        fees := fees[i := fees[i].(state := ProviderHandled)];
        workers := workers - {w};
      } else {
        workers := workers[w := Worker(i, Settled)];
      }
    }

    /** Records every known receipt of the invoice once more. */
    method ReplayReceipts(i: Id)
      requires Valid()
      modifies this`entries, this`cycles, this`receipts
      ensures Valid() && Billing() == Replayed(old(Billing()), i)
    {
      ghost var start := Billing();
      var rest := ReceiptsOf(receipts, i);
      ghost var all := rest;
      while rest != map[]
        invariant Valid() && rest.Keys <= all.Keys && receipts == start.receipts
        invariant rest == all ==> Billing() == start
        invariant rest != all ==> Billing() == ApplyCollected(start, i, Received(start.receipts, i))
        decreases |rest|
      {
        var k :| k in rest;
        assert k in all && 0 < receipts[k];
        ApplyTwice(start, i, Received(start.receipts, i));
        var ok := RecordDirectReceipt(i, k.1, receipts[k]);
        rest := rest - {k};
      }
    }
  }

  lemma Reopens(b: Books, m: Id, id: Id, now: int, config: Config)
    requires m in b.merchants && id !in b.cycles
    ensures SomeOpen(EnsureCycle(b, m, id, now, config).cycles, m)
  {
    var b' := EnsureCycle(b, m, id, now, config);
    if OpenCycle(b.cycles, m).Some? {
      assert IsOpenFor(b'.cycles, m, OpenCycle(b.cycles, m).value);
    } else {
      assert IsOpenFor(b'.cycles, m, id);
    }
  }

  lemma OverdueNext(start: map<Id, Cycle>, shops: map<Id, Merchant>, rest: set<Id>, c: Id,
                    cycles: map<Id, Cycle>, merchants: map<Id, Merchant>, now: int)
    requires Database.OverdueBut(start, shops, rest, cycles, merchants, now) && c in rest && c in start
    requires Database.GraceOver(start[c], now) && start[c].merchant in merchants
    ensures var m := start[c].merchant;
      Database.OverdueBut(start, shops, rest - {c}, cycles[c := Database.OverdueRow(start[c], now)],
                          merchants[m := merchants[m].(standing := Database.OverdueStanding(start[c]))], now)
  {
    var m := start[c].merchant;
    assert Database.Chased(start, rest - {c}, m, now, c);
    forall n | n in shops && n != m
      ensures Database.StandingFollows(start, rest - {c}, n, now, shops[n], merchants[n])
    {
      assert forall d :: Database.Chased(start, rest - {c}, n, now, d) <==> Database.Chased(start, rest, n, now, d);
    }
    assert Database.StandingFollows(start, rest, m, now, shops[m], merchants[m]);
  }

  lemma SuspendedOne(start: map<Id, Cycle>, shops: map<Id, Merchant>, rest: set<Id>, c: Id,
                     cycles: map<Id, Cycle>, merchants: map<Id, Merchant>, now: int)
    requires Database.SuspendedBut(start, shops, rest, cycles, merchants, now) && c in rest && c in start
    ensures Database.Suspends(cycles[c], merchants, now) == Database.Suspends(start[c], shops, now)
    ensures var m := start[c].merchant;
      var merchants' := if Database.Suspends(start[c], shops, now) then merchants[m := merchants[m].(standing := Blocked)] else merchants;
      Database.SuspendedBut(start, shops, rest - {c}, cycles[c := Database.SuspendRow(start[c], shops, now)], merchants', now)
  {
    var suspends := Database.Suspends(start[c], shops, now);
    forall m | m in shops
      ensures Database.LosesAccess(start, rest - {c}, shops, m, now)
         <==> Database.LosesAccess(start, rest, shops, m, now) || (suspends && start[c].merchant == m)
    {
      if suspends && start[c].merchant == m {
        assert c in start.Keys - (rest - {c});
      }
      if d :| d in start.Keys - rest && Database.Suspends(start[d], shops, now) && start[d].merchant == m {
        assert d in start.Keys - (rest - {c});
      }
      if d :| d in start.Keys - (rest - {c}) && Database.Suspends(start[d], shops, now) && start[d].merchant == m {
        assert d == c || d in start.Keys - rest;
      }
    }
  }

  predicate SomeOpen(cycles: map<Id, Cycle>, m: Id) { exists d <- cycles :: IsOpenFor(cycles, m, d) }

  lemma StillOpen(start: map<Id, Cycle>, cycles: map<Id, Cycle>, c: Id)
    requires c in start && SomeOpen(cycles, start[c].merchant)
    requires forall d :: d in start && d != c ==> d in cycles && Database.KeptOrEmptied(start[d], cycles[d])
    ensures forall m :: SomeOpen(start, m) ==> SomeOpen(cycles, m)
  {
    forall m: Id | SomeOpen(start, m) ensures SomeOpen(cycles, m) {
      var d :| d in start && IsOpenFor(start, m, d);
      if d != c {
        assert IsOpenFor(cycles, m, d);
      }
    }
  }

  /** Closing a cycle moves no debt. */
  lemma SameDebts(start: map<Id, Cycle>, closed: map<Id, Cycle>, c: Id)
    requires c in start && c in closed && closed == start[c := closed[c]]
    requires closed[c].merchant == start[c].merchant && closed[c].outstanding == start[c].outstanding
    ensures forall m :: OutstandingOf(closed, m) == OutstandingOf(start, m)
  {
  }

  lemma ApplyTwice(b: Books, i: Id, received: int)
    requires Inv(b) && received <= Received(b.receipts, i)
    ensures ApplyCollected(ApplyCollected(b, i, received), i, received) == ApplyCollected(b, i, received)
  {
    ApplyCollectedKeeps(b, i, received);
    if i in b.entries && b.entries[i].cycle.Some? {
      assert CycleOk(ApplyCollected(b, i, received), b.entries[i].cycle.value);
    }
  }

  /** The claim does not change which entries are eligible. */
  lemma ClaimKeepsEligible(b: Books, c: Id, rows: seq<Row>)
    requires Settleable(b, c) && EligibleRows(Claim(b, c), c, rows)
    ensures EligibleRows(b, c, rows)
  {
    assert forall i :: Eligible(b, c, i) <==> Eligible(Claim(b, c), c, i);
  }
}
