/** Billing passes as the separate statements they are. Opening a cycle reads, sums, inserts and zeroes;
    the overdue and suspension passes fetch rows, then write a status and then a standing. Any number of
    them overlap with each other and with all other billing work, so a write may come late: after what it
    was decided on has changed. */
module LateWrites {
  import opened Sums
  import opened Books
  import opened BooksInvariant
  import opened CycleWorkflow
  import opened Settlements
  import opened BillingRuns
  import opened SettlementInvoices

  // ---- the writes ---------------------------------------------------------------------------

  function InsertCycle(b: Books, m: Id, id: Id, periodEnd: int, sum: int): Books {
    b.(cycles := b.cycles[id := Cycle(m, periodEnd, sum, 0, sum, Open, None, None)], carried := b.carried[id := sum])
  }

  function ZeroCarried(b: Books, m: Id): Books { b.(cycles := Zeroed(b.cycles, m)) }

  /** Uninterrupted, the statements are the whole opening. */
  lemma WholeOpening(b: Books, m: Id, id: Id, now: int, config: Config)
    requires OpenCycle(b.cycles, m).None? && m in b.merchants && id !in b.cycles
    ensures var sum := Total(CarriedOverOf(b.cycles, m));
      var days := if b.merchants[m].tier == New then config.newDays else config.standardDays;
      var inserted := InsertCycle(b, m, id, now + days * DAY, sum);
      EnsureCycle(b, m, id, now, config) == if sum > 0 then ZeroCarried(inserted, m) else inserted
  {
    var sum := Total(CarriedOverOf(b.cycles, m));
    var days := if b.merchants[m].tier == New then config.newDays else config.standardDays;
    var inserted := InsertCycle(b, m, id, now + days * DAY, sum);
    if sum > 0 {
      assert Zeroed(inserted.cycles, m) == Zeroed(b.cycles, m)[id := inserted.cycles[id]];
    }
  }

  // ---- exactly when a write keeps the books right ----------------------------------------------

  /** Inserting a cycle keeps the books right if and only if none was opened meanwhile, however old the
      carried sum is. */
  lemma InsertIff(b: Books, m: Id, id: Id, periodEnd: int, sum: int)
    requires Inv(b) && m in b.merchants && id !in b.cycles && 0 <= sum
    ensures Inv(InsertCycle(b, m, id, periodEnd, sum)) <==> OpenCycle(b.cycles, m).None?
  {
    var b' := InsertCycle(b, m, id, periodEnd, sum);
    if OpenCycle(b.cycles, m).None? {
      InsertKeeps(b, m, id, periodEnd, sum);
    } else {
      var c := OpenCycle(b.cycles, m).value;
      assert IsOpenFor(b.cycles, m, c);
      assert IsOpenFor(b'.cycles, m, c) && IsOpenFor(b'.cycles, m, id);
    }
  }

  lemma InsertedBalance(b: Books, m: Id, id: Id, periodEnd: int, sum: int, c: Id)
    requires LedgerOk(b) && id !in b.cycles
    ensures BalanceOk(InsertCycle(b, m, id, periodEnd, sum), c)
  {
    assert BalanceOk(b, c);
    if c == id {
      forall i
        ensures !(i in b.entries && b.entries[i].cycle == Some(id))
      {
        assert Attached(b, i);
      }
      assert Column(b.entries, id, FeeOf) == map[] && Column(b.entries, id, CollectedOf) == map[];
    }
  }

  lemma InsertKeeps(b: Books, m: Id, id: Id, periodEnd: int, sum: int)
    requires Inv(b) && m in b.merchants && id !in b.cycles && 0 <= sum && OpenCycle(b.cycles, m).None?
    ensures Inv(InsertCycle(b, m, id, periodEnd, sum))
  {
    var b' := InsertCycle(b, m, id, periodEnd, sum);
    forall c
      ensures BalanceOk(b', c) && CycleOk(b', c) && BillOk(b', c)
    {
      InsertedBalance(b, m, id, periodEnd, sum, c);
      assert CycleOk(b, c) && BillOk(b, c);
    }
    forall i
      ensures EntryOk(b', i) && Attached(b', i)
    {
      assert EntryOk(b, i) && Attached(b, i);
    }
    assert forall n, d :: IsOpenFor(b'.cycles, n, d) && d != id ==> IsOpenFor(b.cycles, n, d);
    assert forall d, bill :: BilledBy(b'.cycles, d, bill) ==> BilledBy(b.cycles, d, bill);
    assert forall d, bill :: PaidWith(b, d, bill) ==> PaidWith(b', d, bill);
    assert forall n, d :: LateCycleOf(b, n, d) ==> LateCycleOf(b', n, d);
  }

  lemma ZeroKeeps(b: Books, m: Id)
    requires Inv(b)
    ensures Inv(ZeroCarried(b, m))
  {
    var b' := ZeroCarried(b, m);
    forall c
      ensures BalanceOk(b', c) && CycleOk(b', c) && BillOk(b', c)
    {
      assert BalanceOk(b, c) && CycleOk(b, c) && BillOk(b, c);
    }
    forall i
      ensures EntryOk(b', i) && Attached(b', i)
    {
      assert EntryOk(b, i) && Attached(b, i);
    }
    assert forall n, d :: IsOpenFor(b'.cycles, n, d) ==> IsOpenFor(b.cycles, n, d);
    assert forall d, bill :: BilledBy(b'.cycles, d, bill) ==> BilledBy(b.cycles, d, bill);
    assert forall d, bill :: PaidWith(b, d, bill) ==> PaidWith(b', d, bill);
    assert forall n, d :: LateCycleOf(b, n, d) ==> LateCycleOf(b', n, d);
  }

  /** The cycle was paid with an invoice out of which some entry was paid. */
  predicate PaidOut(b: Books, c: Id)
    requires c in b.cycles
  {
    b.cycles[c].status == Paid && b.cycles[c].bill.Some?
    && exists k <- b.receipts :: k.1 == Settlement(b.cycles[c].bill.value)
  }

  /** The row could be a billed one: it has an invoice covering its debt, its grace period, and exact sums. */
  ghost predicate LooksBilled(b: Books, c: Id)
    requires c in b.cycles
  {
    var r := b.cycles[c];
    && r.bill.Some? && r.grace.Some? && r.bill.value in b.bills
    && r.outstanding <= b.bills[r.bill.value].price
    && r.grace.value >= b.bills[r.bill.value].begun + 7 * DAY
    && b.bills[r.bill.value].begun <= b.bills[r.bill.value].createdAt
    && c in b.carried && Balanced(b.entries, r, b.carried[c], c)
  }

  /** May the cycle be marked past due or suspended: it is still billed, or it looks as if it were and
      nothing was paid out for it. */
  ghost predicate MayBill(b: Books, c: Id)
    requires c in b.cycles
  {
    Billed(b.cycles[c].status) || (LooksBilled(b, c) && !PaidOut(b, c))
  }

  /** May the cycle be marked carried over: nothing was paid out for it, and it is not what its merchant
      is being held for. */
  ghost predicate MayCarry(b: Books, c: Id)
    requires c in b.cycles
  {
    var m := b.cycles[c].merchant;
    && !PaidOut(b, c)
    && (LateCycleOf(b, m, c) && m in b.merchants && b.merchants[m].standing != Active ==>
        exists d :: d != c && LateCycleOf(b, m, d))
  }

  /** A status write that leaves the paid invoices and the merchants' standings accounted for, and whose row
      fits the new status, keeps the books right. */
  lemma StatusFits(b: Books, c: Id, s: Status)
    requires Inv(b) && c in b.cycles && s != Open && !PaidOut(b, c)
    requires BalanceOk(SetStatus(b, c, s), c) && BillOk(SetStatus(b, c, s), c)
    requires StandingOk(SetStatus(b, c, s))
    ensures Inv(SetStatus(b, c, s))
  {
    var b' := SetStatus(b, c, s);
    forall d
      ensures BalanceOk(b', d) && CycleOk(b', d) && BillOk(b', d)
    {
      assert BalanceOk(b, d) && CycleOk(b, d) && BillOk(b, d);
    }
    forall i
      ensures EntryOk(b', i) && Attached(b', i)
    {
      assert EntryOk(b, i) && Attached(b, i);
    }
    assert forall m, d :: IsOpenFor(b'.cycles, m, d) ==> IsOpenFor(b.cycles, m, d);
    assert forall d, bill :: BilledBy(b'.cycles, d, bill) ==> BilledBy(b.cycles, d, bill);
    forall k <- b.receipts.Keys | k.1.Settlement?
      ensures exists d :: PaidWith(b', d, k.1.bill)
    {
      var d :| PaidWith(b, d, k.1.bill);
      assert d != c ==> PaidWith(b', d, k.1.bill);
    }
  }

  /** Once something was paid out, the cycle must stay paid. */
  lemma PaidOutStays(b: Books, c: Id, s: Status)
    requires Inv(b) && c in b.cycles && s != Paid && Inv(SetStatus(b, c, s))
    ensures !PaidOut(b, c)
  {
    var b' := SetStatus(b, c, s);
    if k :| k in b.receipts && PaidOut(b, c) && k.1 == Settlement(b.cycles[c].bill.value) {
      var d :| PaidWith(b', d, k.1.bill);
      assert BilledBy(b'.cycles, d, k.1.bill) && BilledBy(b'.cycles, c, k.1.bill);
    }
  }

  lemma LateStays(b: Books, c: Id, s: Status)
    requires StandingOk(b) && c in b.cycles && (s == PastDue || s == Suspended)
    ensures StandingOk(SetStatus(b, c, s))
  {
    assert forall n, d :: LateCycleOf(b, n, d) ==> LateCycleOf(SetStatus(b, c, s), n, d);
  }

  /** Marking a cycle past due or suspended keeps the books right if and only if MayBill: as a rule, if the
      cycle is still billed. */
  lemma BillingWriteIff(b: Books, c: Id, s: Status)
    requires Inv(b) && c in b.cycles && (s == PastDue || s == Suspended)
    ensures Inv(SetStatus(b, c, s)) <==> MayBill(b, c)
  {
    var b' := SetStatus(b, c, s);
    assert BalanceOk(b, c) && BillOk(b, c) && CycleOk(b, c);
    if MayBill(b, c) {
      LateStays(b, c, s);
      StatusFits(b, c, s);
    }
    if Inv(b') {
      assert BalanceOk(b', c) && BillOk(b', c);
      PaidOutStays(b, c, s);
    }
  }

  /** Carrying a cycle over keeps the books right if and only if MayCarry: as a rule, if it was not paid. */
  lemma CarryWriteIff(b: Books, c: Id)
    requires Inv(b) && c in b.cycles
    ensures Inv(SetStatus(b, c, CarriedOver)) <==> MayCarry(b, c)
  {
    var b' := SetStatus(b, c, CarriedOver);
    assert BillOk(b, c) && CycleOk(b, c);
    if MayCarry(b, c) {
      CarriedStanding(b, c);
      StatusFits(b, c, CarriedOver);
    }
    if Inv(b') {
      PaidOutStays(b, c, CarriedOver);
      assert forall m, d :: LateCycleOf(b', m, d) ==> d != c && LateCycleOf(b, m, d);
    }
  }

  lemma CarriedStanding(b: Books, c: Id)
    requires StandingOk(b) && c in b.cycles && MayCarry(b, c)
    ensures StandingOk(SetStatus(b, c, CarriedOver))
  {
    var b' := SetStatus(b, c, CarriedOver);
    forall m <- b'.merchants.Keys | b'.merchants[m].standing != Active
      ensures exists d :: LateCycleOf(b', m, d)
    {
      var d :| LateCycleOf(b, m, d);
      if d == c {
        var e :| e != c && LateCycleOf(b, m, e);
        assert LateCycleOf(b', m, e);
      } else {
        assert LateCycleOf(b', m, d);
      }
    }
  }

  /** Holding a merchant back keeps the books right if and only if it still has a late cycle; letting it go
      always does. */
  lemma StandingWriteIff(b: Books, m: Id, standing: Standing)
    requires Inv(b) && m in b.merchants
    ensures Inv(SetStanding(b, m, standing)) <==> standing == Active || exists c :: LateCycleOf(b, m, c)
  {
    if standing == Active || exists c :: LateCycleOf(b, m, c) {
      SetStandingKeeps(b, m, standing);
    } else {
      var b' := SetStanding(b, m, standing);
      assert m in b'.merchants.Keys && b'.merchants[m].standing != Active;
      assert forall c :: LateCycleOf(b', m, c) <==> LateCycleOf(b, m, c);
    }
  }

  // ---- totals ---------------------------------------------------------------------------------

  lemma InsertTotal(b: Books, m: Id, id: Id, periodEnd: int, sum: int)
    requires id !in b.cycles
    ensures Total(OutstandingOf(InsertCycle(b, m, id, periodEnd, sum).cycles, m)) == Total(OutstandingOf(b.cycles, m)) + sum
  {
    assert OutstandingOf(InsertCycle(b, m, id, periodEnd, sum).cycles, m) == OutstandingOf(b.cycles, m)[id := sum];
    TotalWrite(OutstandingOf(b.cycles, m), id, sum);
  }

  /** What one call adds to its merchant's debt: inserting in books `b` and, if there was something to carry
      over, zeroing in books `later`. */
  ghost function CallAdds(b: Books, later: Books, m: Id, id: Id, periodEnd: int, sum: int): int {
    Total(OutstandingOf(InsertCycle(b, m, id, periodEnd, sum).cycles, m)) - Total(OutstandingOf(b.cycles, m))
    + if sum > 0 then Total(OutstandingOf(ZeroCarried(later, m).cycles, m)) - Total(OutstandingOf(later.cycles, m)) else 0
  }

  /** A call neither makes nor loses debt if and only if the sum it read is still the carried-over debt when
      it zeroes. */
  lemma OpeningConservesIff(b: Books, later: Books, m: Id, id: Id, periodEnd: int, sum: int)
    requires Inv(b) && Inv(later) && id !in b.cycles && 0 <= sum
    ensures CallAdds(b, later, m, id, periodEnd, sum) == 0 <==> sum == 0 || sum == Total(CarriedOverOf(later.cycles, m))
  {
    InsertTotal(b, m, id, periodEnd, sum);
    ZeroedTotal(later, m);
  }

  // ---- overlapping passes -----------------------------------------------------------------------

  /** Where a pass stands, and what it read. */
  datatype Task =
    | Looked(merchant: Id)                                    // saw no open cycle
    | Summed(merchant: Id, days: int, sum: int)               // read the tier and the carried-over debt
    | Inserted(merchant: Id)                                  // has still to zero what it carried over
    | Fetched(cycle: Id, merchant: Id, status: Status)        // decided on a status for the row it fetched
    | Marked(merchant: Id, standing: Standing)                // has still to write the merchant's standing

  datatype World = World(books: Books, tasks: map<Id, Task>)

  datatype Event =
    | Whole(step: Step)
    | Look(task: Id, merchant: Id)
    | Sum(task: Id)
    | Insert(task: Id, id: Id, now: int)
    | Zero(task: Id)
    | FetchOverdue(task: Id, cycle: Id, now: int)
    | FetchPastDue(task: Id, cycle: Id, now: int)
    | WriteStatus(task: Id)
    | WriteStanding(task: Id)
    | Crash(task: Id)

  ghost predicate Possible(w: World, e: Event) {
    match e
    case Whole(step) => Enabled(w.books, step)
    case Look(t, _) => t !in w.tasks
    case FetchOverdue(t, _, _) => t !in w.tasks
    case FetchPastDue(t, _, _) => t !in w.tasks
    case Sum(t) => t in w.tasks && w.tasks[t].Looked?
    case Insert(t, id, _) => t in w.tasks && w.tasks[t].Summed? && id !in w.books.cycles
    case Zero(t) => t in w.tasks && w.tasks[t].Inserted?
    case WriteStatus(t) => t in w.tasks && w.tasks[t].Fetched? && w.tasks[t].cycle in w.books.cycles
    case WriteStanding(t) => t in w.tasks && w.tasks[t].Marked?
    case Crash(_) => true
  }

  function StandingFor(s: Status): Standing { if s == PastDue then Late else if s == Suspended then Blocked else Active }

  function Begin(w: World, t: Id, task: Task): World { w.(tasks := w.tasks[t := task]) }

  function End(w: World, t: Id): World { w.(tasks := w.tasks - {t}) }

  function FetchedOverdue(b: Books, c: Id, now: int): Option<Task> {
    if c in b.cycles && b.cycles[c].status == Invoiced && b.cycles[c].grace.Some? && b.cycles[c].grace.value < now
    then Some(Fetched(c, b.cycles[c].merchant, if b.cycles[c].outstanding < MIN_SETTLEMENT then CarriedOver else PastDue))
    else None
  }

  function FetchedPastDue(b: Books, c: Id, now: int): Option<Task> {
    if c in b.cycles && b.cycles[c].status == PastDue && b.cycles[c].grace.Some? && b.cycles[c].merchant in b.merchants
       && now > b.cycles[c].grace.value + SuspendDays(b.merchants[b.cycles[c].merchant].tier) * DAY
    then Some(Fetched(c, b.cycles[c].merchant, Suspended))
    else None
  }

  ghost function After(w: World, e: Event, config: Config): World
    requires Possible(w, e)
  {
    var b := w.books;
    match e
    case Whole(step) => w.(books := Next(b, step, config))
    case Look(t, m) => if OpenCycle(b.cycles, m).None? && m in b.merchants then Begin(w, t, Looked(m)) else w
    case Sum(t) =>
      var m := w.tasks[t].merchant;
      var days := if m in b.merchants && b.merchants[m].tier == New then config.newDays else config.standardDays;
      Begin(w, t, Summed(m, days, Total(CarriedOverOf(b.cycles, m))))
    case Insert(t, id, now) =>
      var task := w.tasks[t];
      var w' := w.(books := InsertCycle(b, task.merchant, id, now + task.days * DAY, task.sum));
      if task.sum > 0 then Begin(w', t, Inserted(task.merchant)) else End(w', t)
    case Zero(t) => End(w.(books := ZeroCarried(b, w.tasks[t].merchant)), t)
    case FetchOverdue(t, c, now) =>
      var task := FetchedOverdue(b, c, now);
      if task.Some? then Begin(w, t, task.value) else w
    case FetchPastDue(t, c, now) =>
      var task := FetchedPastDue(b, c, now);
      if task.Some? then Begin(w, t, task.value) else w
    case WriteStatus(t) =>
      var task := w.tasks[t];
      Begin(w.(books := SetStatus(b, task.cycle, task.status)), t, Marked(task.merchant, StandingFor(task.status)))
    case WriteStanding(t) => End(w.(books := SetStanding(b, w.tasks[t].merchant, w.tasks[t].standing)), t)
    case Crash(t) => End(w, t)
  }

  /** What can be read off before a write: no cycle was opened meanwhile; the fetched row may still take the
      status; the merchant still has a late cycle to be held for. */
  ghost predicate InTime(w: World, e: Event)
    requires Possible(w, e)
  {
    var b := w.books;
    match e
    case Insert(t, _, _) => OpenCycle(b.cycles, w.tasks[t].merchant).None?
    case WriteStatus(t) => if w.tasks[t].status == CarriedOver then MayCarry(b, w.tasks[t].cycle) else MayBill(b, w.tasks[t].cycle)
    case WriteStanding(t) => w.tasks[t].standing == Active || exists c :: LateCycleOf(b, w.tasks[t].merchant, c)
    case _ => true
  }

  predicate TaskOk(b: Books, task: Task) {
    && task.merchant in b.merchants
    && (task.Summed? ==> 0 <= task.sum)
    && (task.Fetched? ==> task.status == PastDue || task.status == Suspended || task.status == CarriedOver)
  }

  ghost predicate TasksOk(w: World) {
    forall t <- w.tasks :: TaskOk(w.books, w.tasks[t])
  }

  lemma NextKeepsMerchants(b: Books, s: Step, config: Config)
    requires Inv(b) && Enabled(b, s)
    ensures Next(b, s, config).merchants.Keys == b.merchants.Keys
  {
    if s.Clear? && Settleable(b, s.cycle) {
      RowsPayable(b, s.cycle, s.rows);
      PayoutShares(Claim(b, s.cycle), s.rows, Budget(b, s.cycle), b.cycles[s.cycle].bill.value);
    }
  }

  lemma AfterKeepsMerchants(w: World, e: Event, config: Config)
    requires Inv(w.books) && Possible(w, e)
    ensures After(w, e, config).books.merchants.Keys == w.books.merchants.Keys
  {
    if e.Whole? {
      NextKeepsMerchants(w.books, e.step, config);
    }
  }

  lemma AfterKeepsTasks(w: World, e: Event, config: Config)
    requires Inv(w.books) && TasksOk(w) && Possible(w, e)
    ensures TasksOk(After(w, e, config))
  {
    AfterKeepsMerchants(w, e, config);
    match e
    case Sum(t) => CarriedNonNegative(w.books, w.tasks[t].merchant);
    case FetchOverdue(_, c, _) => assert CycleOk(w.books, c);
    case FetchPastDue(_, c, _) => assert CycleOk(w.books, c);
    case _ =>
  }

  /** Every event keeps the books right if and only if its write comes in time. */
  lemma InTimeStep(w: World, e: Event, config: Config)
    requires Inv(w.books) && TasksOk(w) && Possible(w, e)
    ensures Inv(After(w, e, config).books) <==> InTime(w, e)
  {
    var b := w.books;
    match e
    case Whole(step) => NextKeeps(b, step, config);
    case Insert(t, id, now) =>
      assert TaskOk(b, w.tasks[t]);
      InsertIff(b, w.tasks[t].merchant, id, now + w.tasks[t].days * DAY, w.tasks[t].sum);
    case Zero(t) => ZeroKeeps(b, w.tasks[t].merchant);
    case WriteStatus(t) =>
      assert TaskOk(b, w.tasks[t]);
      if w.tasks[t].status == CarriedOver {
        CarryWriteIff(b, w.tasks[t].cycle);
      } else {
        BillingWriteIff(b, w.tasks[t].cycle, w.tasks[t].status);
      }
    case WriteStanding(t) =>
      assert TaskOk(b, w.tasks[t]);
      StandingWriteIff(b, w.tasks[t].merchant, w.tasks[t].standing);
    case _ =>
  }

  ghost predicate Follows(worlds: seq<World>, events: seq<Event>, config: Config, k: nat)
    requires |worlds| == |events| + 1
  {
    k < |events| ==> Possible(worlds[k], events[k]) && worlds[k + 1] == After(worlds[k], events[k], config)
  }

  ghost predicate IsOverlap(worlds: seq<World>, events: seq<Event>, config: Config) {
    && |worlds| == |events| + 1 && Inv(worlds[0].books) && worlds[0].tasks == map[]
    && forall k: nat {:trigger Follows(worlds, events, config, k)} :: Follows(worlds, events, config, k)
  }

  ghost predicate InTimeAt(worlds: seq<World>, events: seq<Event>, config: Config, k: nat)
    requires |worlds| == |events| + 1 && k < |events|
  {
    Follows(worlds, events, config, k) && InTime(worlds[k], events[k])
  }

  ghost predicate AllInTime(worlds: seq<World>, events: seq<Event>, config: Config, k: nat)
    requires |worlds| == |events| + 1 && k <= |events|
  {
    forall n: nat | n < k :: InTimeAt(worlds, events, config, n)
  }

  /** As long as every write came in time, the books are right. */
  lemma {:induction false} InTimeKeeps(worlds: seq<World>, events: seq<Event>, config: Config, k: nat)
    requires IsOverlap(worlds, events, config) && k <= |events| && AllInTime(worlds, events, config, k)
    ensures Inv(worlds[k].books) && TasksOk(worlds[k])
  {
    if k > 0 {
      InTimeKeeps(worlds, events, config, k - 1);
      assert InTimeAt(worlds, events, config, k - 1);
      InTimeStep(worlds[k - 1], events[k - 1], config);
      AfterKeepsTasks(worlds[k - 1], events[k - 1], config);
    }
  }

  lemma RightStep(worlds: seq<World>, events: seq<Event>, config: Config, k: nat)
    requires IsOverlap(worlds, events, config) && k < |events| && AllInTime(worlds, events, config, k)
    requires Inv(worlds[k + 1].books)
    ensures InTimeAt(worlds, events, config, k)
  {
    InTimeKeeps(worlds, events, config, k);
    assert Follows(worlds, events, config, k);
    InTimeStep(worlds[k], events[k], config);
  }

  lemma {:induction false} RightMeansInTime(worlds: seq<World>, events: seq<Event>, config: Config, k: nat)
    requires IsOverlap(worlds, events, config) && k <= |events| && forall w <- worlds :: Inv(w.books)
    ensures AllInTime(worlds, events, config, k)
  {
    if k > 0 {
      RightMeansInTime(worlds, events, config, k - 1);
      assert worlds[k] in worlds;
      RightStep(worlds, events, config, k - 1);
    }
  }

  /** However the passes overlap and crash, the books are right throughout if and only if every late write
      came in time. */
  lemma BooksStayRightIff(worlds: seq<World>, events: seq<Event>, config: Config)
    requires IsOverlap(worlds, events, config)
    ensures (forall w <- worlds :: Inv(w.books)) <==> AllInTime(worlds, events, config, |events|)
  {
    if AllInTime(worlds, events, config, |events|) {
      forall k: nat | k < |worlds| ensures Inv(worlds[k].books) {
        InTimeKeeps(worlds, events, config, k);
      }
    }
    if forall w <- worlds :: Inv(w.books) {
      RightMeansInTime(worlds, events, config, |events|);
    }
  }

  lemma Prolonged(worlds: seq<World>, events: seq<Event>, config: Config, e: Event) returns (worlds': seq<World>, events': seq<Event>)
    requires IsOverlap(worlds, events, config) && Possible(worlds[|events|], e)
    ensures IsOverlap(worlds', events', config) && |events'| == |events| + 1
    ensures worlds'[0] == worlds[0] && worlds'[|events'|] == After(worlds[|events|], e, config)
  {
    events' := events + [e];
    worlds' := worlds + [After(worlds[|events|], e, config)];
    forall k: nat
      ensures Follows(worlds', events', config, k)
    {
      assert Follows(worlds, events, config, k);
    }
  }
}
