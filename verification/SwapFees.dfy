/** Fees of swapped payments: an invoice is billed in ZEC or settled through the swap provider.
    Reconciliation workers, crashes and ordinary billing interleave freely. */
module SwapFees {
  import opened Sums
  import opened Books
  import opened BooksInvariant
  import opened CycleWorkflow
  import opened Settlements
  import opened BillingRuns

  datatype FeeState = Reserved | Bound | Collected | Direct | ProviderHandled
  datatype Duty = Verifying | DueDirect | DueCrosschain
  datatype FeeRow = FeeRow(confidential: bool, state: FeeState)
  datatype Deferred = Deferred(merchant: Id, amount: nat, duty: Duty)
  /** How far a reconciliation in flight has come: it reads the provider's status; or it holds the
      obligation it claimed for a direct payment, which it has yet to bill; or it has yet to mark the fee
      direct; or its settlement is committed but not yet recorded. A crash may come in between. */
  datatype Phase = Looking | Obliged(merchant: Id, amount: nat) | Marking | Settled
  datatype Worker = Worker(invoice: Id, phase: Phase)

  datatype Swaps = Swaps(
    attempts: set<Id>,
    fees: map<Id, FeeRow>,
    deferred: map<Id, Deferred>,
    settlements: set<Id>,
    workers: map<Id, Worker>)

  datatype System = System(books: Books, swaps: Swaps)

  predicate Terminal(s: FeeState) { s == Collected || s == Direct || s == ProviderHandled }

  // ---- transactions -------------------------------------------------------------------------

  /** Billing a confirmed payment: nothing after a settlement, an obligation kept aside while a
      swap is unresolved, else a ledger entry. */
  ghost function CreateFee(y: System, i: Id, m: Id, amount: nat, now: int): System {
    var s := y.swaps;
    if i in s.settlements then y
    else if (i in s.attempts || i in s.fees) && !(i in s.deferred && s.deferred[i].duty == DueDirect) then
      if i in s.deferred then y
      else y.(swaps := s.(deferred := s.deferred[i := Deferred(m, amount, Verifying)]))
    else y.(books := InsertEntry(y.books, i, m, amount, now))
  }

  /** Reserving a swap, with a fee row when the gateway collects fees. */
  function Reserve(y: System, i: Id, mode: Option<bool>): System {
    var s := y.swaps;
    if i in s.attempts then y
    else if mode.None? then y.(swaps := s.(attempts := s.attempts + {i}))
    else if i in y.books.entries || i in s.fees then y
    else y.(swaps := s.(attempts := s.attempts + {i}, fees := s.fees[i := FeeRow(mode.value, Reserved)]))
  }

  function SetFee(s: Swaps, i: Id, state: FeeState): Swaps {
    if i in s.fees then s.(fees := s.fees[i := s.fees[i].(state := state)]) else s
  }

  function BindQuote(y: System, i: Id): System {
    if i in y.swaps.fees && y.swaps.fees[i].state == Reserved then y.(swaps := SetFee(y.swaps, i, Bound)) else y
  }

  function SetDuty(s: Swaps, i: Id, duty: Duty): Swaps {
    if i in s.deferred then s.(deferred := s.deferred[i := s.deferred[i].(duty := duty)]) else s
  }

  function Retire(s: Swaps, w: Id): Swaps { s.(workers := s.workers - {w}) }

  ghost function Replayed(b: Books, i: Id): Books {
    if ReceiptsOf(b.receipts, i) == map[] then b else ApplyCollected(b, i, Received(b.receipts, i))
  }

  /** The payment turned out to be direct. The three statements of resolving it: claim the obligation kept
      aside, bill it, and mark the fee. Receipts are replayed between the last two, by billing steps. */
  function ClaimDirect(y: System, w: Id): System
    requires w in y.swaps.workers
  {
    var s, i := y.swaps, y.swaps.workers[w].invoice;
    if i in s.deferred && s.deferred[i].duty != DueCrosschain then
      var obliged := Obliged(s.deferred[i].merchant, s.deferred[i].amount);
      y.(swaps := SetDuty(s.(workers := s.workers[w := Worker(i, obliged)]), i, DueDirect))
    else y.(swaps := s.(workers := s.workers[w := Worker(i, Marking)]))
  }

  ghost function BillDirect(y: System, w: Id, now: int): System
    requires w in y.swaps.workers && y.swaps.workers[w].phase.Obliged?
  {
    var worker := y.swaps.workers[w];
    var y' := CreateFee(y, worker.invoice, worker.phase.merchant, worker.phase.amount, now);
    y'.(swaps := y'.swaps.(workers := y'.swaps.workers[w := Worker(worker.invoice, Marking)]))
  }

  function MarkedDirect(s: Swaps, i: Id): Swaps {
    if i in s.fees && s.fees[i].state != Collected && s.fees[i].state != ProviderHandled then SetFee(s, i, Direct) else s
  }

  function MarkDirect(y: System, w: Id): System
    requires w in y.swaps.workers
  {
    y.(swaps := Retire(MarkedDirect(y.swaps, y.swaps.workers[w].invoice), w))
  }

  /** Resolving a payment as direct without interruption. */
  ghost function ResolveDirect(y: System, i: Id, now: int): System {
    var s := y.swaps;
    var billed :=
      if i in s.deferred && s.deferred[i].duty != DueCrosschain then
        var y1 := CreateFee(y.(swaps := SetDuty(s, i, DueDirect)), i, s.deferred[i].merchant, s.deferred[i].amount, now);
        y1.(books := Replayed(y1.books, i))
      else y;
    billed.(swaps := MarkedDirect(billed.swaps, i))
  }

  /** The swap delivered. Confidential fees re-check the fee state in the same transaction and end
      here; public fees commit the settlement and are recorded by a later transaction. */
  function SettleSwap(y: System, w: Id): System
    requires w in y.swaps.workers
  {
    var s, i := y.swaps, y.swaps.workers[w].invoice;
    var settled := SetDuty(s.(settlements := s.settlements + {i}), i, DueCrosschain);
    if i !in s.fees then y.(swaps := Retire(settled, w))
    else if s.fees[i].confidential then
      if Terminal(s.fees[i].state) then y.(swaps := Retire(s, w))
      else y.(swaps := Retire(SetFee(settled, i, ProviderHandled), w))
    else y.(swaps := settled.(workers := settled.workers[w := Worker(i, Settled)]))
  }

  function RecordCollected(y: System, w: Id): System
    requires w in y.swaps.workers
  {
    y.(swaps := Retire(SetFee(y.swaps, y.swaps.workers[w].invoice, Collected), w))
  }

  // ---- runs ---------------------------------------------------------------------------------

  datatype Event =
    | Bill(step: Step)
    | Confirm(invoice: Id, merchant: Id, amount: nat, now: int)
    | Start(invoice: Id, mode: Option<bool>)
    | Quote(invoice: Id)
    | Begin(worker: Id, invoice: Id)
    | FoundDirect(worker: Id)
    | BilledAsDirect(worker: Id, now: int)
    | MarkedAsDirect(worker: Id)
    | FoundDelivered(worker: Id)
    | FoundCredit(worker: Id)
    | Crash(worker: Id)

  ghost predicate Possible(y: System, e: Event) {
    match e
    case Bill(step) => !step.Charge? && Enabled(y.books, step)
    case Begin(w, i) => w !in y.swaps.workers && i in y.swaps.attempts && (i in y.swaps.fees ==> !Terminal(y.swaps.fees[i].state))
    case FoundDirect(w) => w in y.swaps.workers && y.swaps.workers[w].phase.Looking?
    case BilledAsDirect(w, _) => w in y.swaps.workers && y.swaps.workers[w].phase.Obliged?
    case MarkedAsDirect(w) => w in y.swaps.workers && y.swaps.workers[w].phase.Marking?
    case FoundDelivered(w) => w in y.swaps.workers && y.swaps.workers[w].phase.Looking?
    case FoundCredit(w) => w in y.swaps.workers && y.swaps.workers[w].phase.Settled?
    case _ => true
  }

  ghost function After(y: System, e: Event, config: Config): System
    requires Possible(y, e)
  {
    match e
    case Bill(step) => y.(books := Next(y.books, step, config))
    case Confirm(i, m, amount, now) => CreateFee(y, i, m, amount, now)
    case Start(i, mode) => Reserve(y, i, mode)
    case Quote(i) => BindQuote(y, i)
    case Begin(w, i) => y.(swaps := y.swaps.(workers := y.swaps.workers[w := Worker(i, Looking)]))
    case FoundDirect(w) => ClaimDirect(y, w)
    case BilledAsDirect(w, now) => BillDirect(y, w, now)
    case MarkedAsDirect(w) => MarkDirect(y, w)
    case FoundDelivered(w) => SettleSwap(y, w)
    case FoundCredit(w) => RecordCollected(y, w)
    case Crash(w) => y.(swaps := Retire(y.swaps, w))
  }

  /** One reconciliation at a time for a public fee: the lease. A confidential fee checks its state instead. */
  ghost predicate Leased(y: System, e: Event, i: Id) {
    e.Begin? && e.invoice == i && i in y.swaps.fees && !y.swaps.fees[i].confidential ==>
      forall w :: !InFlight(y.swaps, i, w)
  }

  ghost predicate Follows(states: seq<System>, events: seq<Event>, config: Config, k: nat)
    requires |states| == |events| + 1
  {
    k < |events| ==> Possible(states[k], events[k]) && states[k + 1] == After(states[k], events[k], config)
  }

  ghost predicate IsHistory(states: seq<System>, events: seq<Event>, config: Config) {
    |states| == |events| + 1 && forall k: nat {:trigger Follows(states, events, config, k)} :: Follows(states, events, config, k)
  }

  ghost predicate LeasedHistory(states: seq<System>, events: seq<Event>, i: Id) {
    |states| == |events| + 1 && forall k :: 0 <= k < |events| ==> Leased(states[k], events[k], i)
  }

  ghost predicate Fresh0(y: System) {
    Inv(y.books) && y.swaps == Swaps({}, map[], map[], {}, map[])
  }

  // ---- the link between ledger, obligation, fee and settlement ------------------------------

  predicate InFlight(s: Swaps, i: Id, w: Id) {
    w in s.workers && s.workers[w].invoice == i
  }

  /** Rows about an invoice's swap exist only once it has an attempt, and only a public fee waits
      for its record. */
  ghost predicate Rooted(s: Swaps, i: Id) {
    && (i in s.fees || i in s.deferred || i in s.settlements ==> i in s.attempts)
    && forall w :: InFlight(s, i, w) ==> i in s.attempts && (s.workers[w].phase.Settled? ==> i in s.fees && !s.fees[i].confidential)
  }

  predicate Exclusive(y: System, i: Id) {
    !(i in y.books.entries && i in y.swaps.settlements)
  }

  predicate HasDuty(s: Swaps, i: Id, duty: Duty) { i in s.deferred && s.deferred[i].duty == duty }

  /** How ledger, obligation, fee and settlement hang together, even once an invoice was both billed and
      settled: an obligation is due to the swap exactly when settled, a fee-bearing swap is billed only
      through its obligation, and exactly a settled confidential fee is handled by the provider. */
  predicate Linked(y: System, i: Id) {
    var s := y.swaps;
    && (i in s.deferred ==> (s.deferred[i].duty == DueCrosschain <==> i in s.settlements))
    && (i in s.fees ==>
      && (i in y.books.entries ==> i in s.deferred && s.deferred[i].duty != Verifying)
      && (s.fees[i].confidential ==> (s.fees[i].state == ProviderHandled <==> i in s.settlements) && s.fees[i].state != Collected)
      && (!s.fees[i].confidential ==> s.fees[i].state != ProviderHandled))
  }

  /** A public fee in flight is not terminal, and only one worker holds it. */
  ghost predicate Held(s: Swaps, i: Id) {
    i in s.fees && !s.fees[i].confidential ==>
      && (forall w :: InFlight(s, i, w) ==> !Terminal(s.fees[i].state))
      && (forall v, w :: InFlight(s, i, v) && InFlight(s, i, w) ==> v == w)
  }

  lemma BillKeepsKeys(b: Books, step: Step, config: Config)
    requires LedgerOk(b) && Enabled(b, step) && !step.Charge?
    ensures Next(b, step, config).entries.Keys == b.entries.Keys
  {
    match step
    case Clear(c, rows) =>
      if Settleable(b, c) {
        RowsPayable(b, c, rows);
        PayoutShares(Claim(b, c), rows, Budget(b, c), b.cycles[c].bill.value);
      }
    case OpenNew(m, c, now) =>
    case _ =>
  }

  lemma ResolveKeepsBooks(y: System, i: Id, now: int)
    requires Inv(y.books)
    ensures Inv(ResolveDirect(y, i, now).books)
  {
    var s := y.swaps;
    if i in s.deferred && s.deferred[i].duty != DueCrosschain {
      var y1 := CreateFee(y.(swaps := SetDuty(s, i, DueDirect)), i, s.deferred[i].merchant, s.deferred[i].amount, now);
      InsertEntryKeeps(y.books, i, s.deferred[i].merchant, s.deferred[i].amount, now);
      ApplyCollectedKeeps(y1.books, i, Received(y1.books.receipts, i));
    }
  }

  lemma AfterKeepsBooks(y: System, e: Event, config: Config)
    requires Inv(y.books) && Possible(y, e)
    ensures Inv(After(y, e, config).books)
  {
    match e
    case Bill(step) => NextKeeps(y.books, step, config);
    case Confirm(i, m, amount, now) => InsertEntryKeeps(y.books, i, m, amount, now);
    case BilledAsDirect(w, now) =>
      var worker := y.swaps.workers[w];
      InsertEntryKeeps(y.books, worker.invoice, worker.phase.merchant, worker.phase.amount, now);
    case _ =>
  }

  /** A reconciliation that claimed an obligation bills it, has all receipts replayed and marks the fee. */
  ghost function BilledAndMarked(y: System, w: Id, now: int): System
    requires w in y.swaps.workers && y.swaps.workers[w].phase.Obliged?
  {
    var billed := BillDirect(y, w, now);
    MarkDirect(billed.(books := Replayed(billed.books, y.swaps.workers[w].invoice)), w)
  }

  lemma ClaimedInSteps(y: System, w: Id, now: int)
    requires w in y.swaps.workers && ClaimDirect(y, w).swaps.workers[w].phase.Obliged?
    ensures var resolved := ResolveDirect(y, y.swaps.workers[w].invoice, now);
      BilledAndMarked(ClaimDirect(y, w), w, now) == resolved.(swaps := Retire(resolved.swaps, w))
  {
  }

  /** Claiming, billing, replaying and marking, one after the other, is resolving without interruption. */
  lemma ResolvedInSteps(y: System, w: Id, now: int)
    requires w in y.swaps.workers
    ensures var claimed := ClaimDirect(y, w);
      var resolved := ResolveDirect(y, y.swaps.workers[w].invoice, now);
      (if claimed.swaps.workers[w].phase.Obliged? then BilledAndMarked(claimed, w, now) else MarkDirect(claimed, w))
      == resolved.(swaps := Retire(resolved.swaps, w))
  {
    if ClaimDirect(y, w).swaps.workers[w].phase.Obliged? {
      ClaimedInSteps(y, w, now);
    }
  }

  // ---- exclusivity, with any number of reconciliations at once --------------------------------

  /** A delivery is committed: only a confidential fee looks at its state again and may refuse. */
  predicate Commits(y: System, e: Event, i: Id) {
    && e.FoundDelivered? && InFlight(y.swaps, i, e.worker)
    && !(i in y.swaps.fees && y.swaps.fees[i].confidential && Terminal(y.swaps.fees[i].state))
  }

  /** A delivery is committed for an invoice already billed. */
  predicate Clashes(y: System, e: Event, i: Id) {
    Commits(y, e, i) && i in y.books.entries
  }

  predicate OfWorker(e: Event) {
    e.FoundDirect? || e.BilledAsDirect? || e.MarkedAsDirect? || e.FoundDelivered? || e.FoundCredit?
  }

  lemma WorkersStep(y: System, e: Event, config: Config, i: Id)
    requires Possible(y, e)
    ensures forall w :: InFlight(After(y, e, config).swaps, i, w) ==>
      (InFlight(y.swaps, i, w) && !((e.MarkedAsDirect? || e.FoundCredit? || e.Crash?) && w == e.worker))
      || (e.Begin? && w == e.worker && e.invoice == i)
  {
  }

  lemma RootedStep(y: System, e: Event, config: Config, i: Id)
    requires Rooted(y.swaps, i) && Possible(y, e)
    ensures Rooted(After(y, e, config).swaps, i)
  {
    if OfWorker(e) {
      assert InFlight(y.swaps, y.swaps.workers[e.worker].invoice, e.worker);
    }
    WorkersStep(y, e, config, i);
  }

  /** Only billing makes an entry, and never for a settled invoice. */
  lemma EntriesStep(y: System, e: Event, config: Config, i: Id)
    requires LedgerOk(y.books) && Possible(y, e)
    ensures i in y.books.entries ==> i in After(y, e, config).books.entries
    ensures i in After(y, e, config).books.entries ==> i in y.books.entries || (i !in y.swaps.settlements && !e.FoundDelivered?)
    ensures i in After(y, e, config).books.entries && i in y.swaps.fees ==> i in y.books.entries || HasDuty(y.swaps, i, DueDirect)
  {
    if e.Bill? {
      BillKeepsKeys(y.books, e.step, config);
    }
  }

  lemma SettlementsStep(y: System, e: Event, config: Config, i: Id)
    requires Possible(y, e)
    ensures i in After(y, e, config).swaps.settlements <==> i in y.swaps.settlements || Commits(y, e, i)
  {
    if e.FoundDelivered? {
      assert InFlight(y.swaps, y.swaps.workers[e.worker].invoice, e.worker);
    }
  }

  /** A clash ends exclusivity at once, and nothing else does. */
  lemma ExclusiveStep(y: System, e: Event, config: Config, i: Id)
    requires LedgerOk(y.books) && Possible(y, e) && Exclusive(y, i)
    ensures Exclusive(After(y, e, config), i) <==> !Clashes(y, e, i)
  {
    EntriesStep(y, e, config, i);
    SettlementsStep(y, e, config, i);
  }

  lemma CreateFeeLinked(y: System, i: Id, m: Id, amount: nat, now: int, k: Id)
    requires Linked(y, k)
    ensures Linked(CreateFee(y, i, m, amount, now), k)
  {
  }

  lemma DeliverLinked(y: System, w: Id, i: Id)
    requires Linked(y, i) && w in y.swaps.workers
    ensures Linked(SettleSwap(y, w), i)
  {
  }

  lemma LinkedStep(y: System, e: Event, config: Config, i: Id)
    requires LedgerOk(y.books) && Rooted(y.swaps, i) && Linked(y, i) && Possible(y, e)
    ensures Linked(After(y, e, config), i)
  {
    match e
    case Bill(step) => BillKeepsKeys(y.books, step, config);
    case Confirm(j, m, amount, now) => CreateFeeLinked(y, j, m, amount, now, i);
    case BilledAsDirect(w, now) =>
      var worker := y.swaps.workers[w];
      CreateFeeLinked(y, worker.invoice, worker.phase.merchant, worker.phase.amount, now, i);
    case FoundDelivered(w) => DeliverLinked(y, w, i);
    case FoundCredit(w) => assert InFlight(y.swaps, y.swaps.workers[w].invoice, w);
    case _ =>
  }

  lemma {:induction false} HistoryRooted(states: seq<System>, events: seq<Event>, config: Config, i: Id, k: nat)
    requires IsHistory(states, events, config) && Fresh0(states[0]) && k < |states|
    ensures Inv(states[k].books) && Rooted(states[k].swaps, i)
  {
    if k > 0 {
      HistoryRooted(states, events, config, i, k - 1);
      assert Follows(states, events, config, k - 1);
      AfterKeepsBooks(states[k - 1], events[k - 1], config);
      RootedStep(states[k - 1], events[k - 1], config, i);
    }
  }

  ghost predicate NoClash(states: seq<System>, events: seq<Event>, i: Id, k: nat)
    requires k <= |events| && |states| == |events| + 1
  {
    forall j: nat | j < k :: !Clashes(states[j], events[j], i)
  }

  /** The tables hang together in every state of every history. */
  lemma {:induction false} HistoryLinked(states: seq<System>, events: seq<Event>, config: Config, i: Id, k: nat)
    requires IsHistory(states, events, config) && Fresh0(states[0]) && k < |states|
    ensures Linked(states[k], i)
  {
    if k > 0 {
      HistoryLinked(states, events, config, i, k - 1);
      HistoryRooted(states, events, config, i, k - 1);
      assert Follows(states, events, config, k - 1);
      LinkedStep(states[k - 1], events[k - 1], config, i);
    }
  }

  lemma {:induction false} ExclusiveWithoutClash(states: seq<System>, events: seq<Event>, config: Config, i: Id, k: nat)
    requires IsHistory(states, events, config) && Fresh0(states[0]) && k < |states| && NoClash(states, events, i, k)
    ensures Exclusive(states[k], i)
  {
    if k > 0 {
      ExclusiveWithoutClash(states, events, config, i, k - 1);
      HistoryRooted(states, events, config, i, k - 1);
      assert Follows(states, events, config, k - 1);
      ExclusiveStep(states[k - 1], events[k - 1], config, i);
    }
  }

  /** However reconciliations overlap, and with or without a fee: an invoice is never both billed and
      settled if and only if no delivery is committed for it once it is billed. */
  lemma ExclusiveIff(states: seq<System>, events: seq<Event>, config: Config, i: Id)
    requires IsHistory(states, events, config) && Fresh0(states[0])
    ensures (forall y <- states :: Exclusive(y, i)) <==> NoClash(states, events, i, |events|)
  {
    if NoClash(states, events, i, |events|) {
      forall k: nat | k < |states| ensures Exclusive(states[k], i) {
        ExclusiveWithoutClash(states, events, config, i, k);
      }
    }
    if forall y <- states :: Exclusive(y, i) {
      forall j: nat | j < |events| ensures !Clashes(states[j], events[j], i) {
        assert Exclusive(states[j], i) && Exclusive(states[j + 1], i);
        HistoryRooted(states, events, config, i, j);
        assert Follows(states, events, config, j);
        ExclusiveStep(states[j], events[j], config, i);
      }
    }
  }

  // ---- finality, with any number of reconciliations at once ----------------------------------

  /** A credit is recorded over a fee that was meanwhile marked direct. */
  predicate Overwrites(y: System, e: Event, i: Id) {
    e.FoundCredit? && InFlight(y.swaps, i, e.worker) && i in y.swaps.fees && y.swaps.fees[i].state == Direct
  }

  predicate Persists(y: System, y': System, i: Id) {
    i in y.swaps.fees && Terminal(y.swaps.fees[i].state) ==> i in y'.swaps.fees && y'.swaps.fees[i] == y.swaps.fees[i]
  }

  /** Only confidential fees are ever handled by the provider. */
  predicate PublicNotHandled(s: Swaps, i: Id) {
    i in s.fees && !s.fees[i].confidential ==> s.fees[i].state != ProviderHandled
  }

  lemma PersistsStep(y: System, e: Event, config: Config, i: Id)
    requires Rooted(y.swaps, i) && PublicNotHandled(y.swaps, i) && Possible(y, e)
    ensures PublicNotHandled(After(y, e, config).swaps, i)
    ensures Persists(y, After(y, e, config), i) <==> !Overwrites(y, e, i)
  {
    if OfWorker(e) {
      assert InFlight(y.swaps, y.swaps.workers[e.worker].invoice, e.worker);
    }
  }

  lemma {:induction false} HistoryNotHandled(states: seq<System>, events: seq<Event>, config: Config, i: Id, k: nat)
    requires IsHistory(states, events, config) && Fresh0(states[0]) && k < |states|
    ensures PublicNotHandled(states[k].swaps, i)
  {
    if k > 0 {
      HistoryNotHandled(states, events, config, i, k - 1);
      HistoryRooted(states, events, config, i, k - 1);
      assert Follows(states, events, config, k - 1);
      PersistsStep(states[k - 1], events[k - 1], config, i);
    }
  }

  ghost predicate NoOverwrite(states: seq<System>, events: seq<Event>, i: Id, k: nat)
    requires k <= |events| && |states| == |events| + 1
  {
    forall j: nat | j < k :: !Overwrites(states[j], events[j], i)
  }

  lemma {:induction false} PersistsWithoutOverwrite(states: seq<System>, events: seq<Event>, config: Config, i: Id, j: nat, k: nat)
    requires IsHistory(states, events, config) && Fresh0(states[0]) && j <= k < |states| && NoOverwrite(states, events, i, k)
    ensures Persists(states[j], states[k], i)
    decreases k
  {
    if j < k {
      PersistsWithoutOverwrite(states, events, config, i, j, k - 1);
      HistoryRooted(states, events, config, i, k - 1);
      HistoryNotHandled(states, events, config, i, k - 1);
      assert Follows(states, events, config, k - 1);
      PersistsStep(states[k - 1], events[k - 1], config, i);
    }
  }

  ghost predicate Final(states: seq<System>, i: Id) {
    forall j: nat, k: nat | j <= k < |states| :: Persists(states[j], states[k], i)
  }

  /** However reconciliations overlap: collected, direct and provider-handled are final if and only if no
      credit is recorded over a fee that was meanwhile marked direct. */
  lemma FinalIff(states: seq<System>, events: seq<Event>, config: Config, i: Id)
    requires IsHistory(states, events, config) && Fresh0(states[0])
    ensures Final(states, i) <==> NoOverwrite(states, events, i, |events|)
  {
    if NoOverwrite(states, events, i, |events|) {
      forall j: nat, k: nat | j <= k < |states| ensures Persists(states[j], states[k], i) {
        PersistsWithoutOverwrite(states, events, config, i, j, k);
      }
    }
    if Final(states, i) {
      forall k: nat | k < |events| ensures !Overwrites(states[k], events[k], i) {
        HistoryRooted(states, events, config, i, k);
        HistoryNotHandled(states, events, config, i, k);
        assert Follows(states, events, config, k);
        PersistsStep(states[k], events[k], config, i);
        assert Persists(states[k], states[k + 1], i);
      }
    }
  }

  // ---- modes of fees --------------------------------------------------------------------------

  lemma {:induction false} ModeIsFixed(states: seq<System>, events: seq<Event>, config: Config, i: Id, j: nat, k: nat)
    requires IsHistory(states, events, config) && j <= k < |states| && i in states[j].swaps.fees
    ensures i in states[k].swaps.fees && states[k].swaps.fees[i].confidential == states[j].swaps.fees[i].confidential
    decreases k
  {
    if j < k {
      ModeIsFixed(states, events, config, i, j, k - 1);
      assert Follows(states, events, config, k - 1);
      AfterMode(states[k - 1], events[k - 1], config, i);
    }
  }

  lemma AfterMode(y: System, e: Event, config: Config, i: Id)
    requires Possible(y, e)
    ensures i in y.swaps.fees ==>
      i in After(y, e, config).swaps.fees && After(y, e, config).swaps.fees[i].confidential == y.swaps.fees[i].confidential
  {
  }

  predicate FeeFree(s: Swaps, i: Id) { i in s.attempts && i !in s.fees }

  lemma AfterFeeFree(y: System, e: Event, config: Config, i: Id)
    requires Possible(y, e) && FeeFree(y.swaps, i)
    ensures FeeFree(After(y, e, config).swaps, i)
  {
  }

  /** A swap reserved without a fee never gets one. */
  lemma {:induction false} FeeFreeIsFixed(states: seq<System>, events: seq<Event>, config: Config, i: Id, j: nat, k: nat)
    requires IsHistory(states, events, config) && j <= k < |states| && FeeFree(states[j].swaps, i)
    ensures FeeFree(states[k].swaps, i)
    decreases k
  {
    if j < k {
      FeeFreeIsFixed(states, events, config, i, j, k - 1);
      assert Follows(states, events, config, k - 1);
      AfterFeeFree(states[k - 1], events[k - 1], config, i);
    }
  }

  // ---- interrupted resolutions ----------------------------------------------------------------

  /** A direct payment's obligation is claimed, or its fee marked. */
  predicate Claims(y: System, e: Event, i: Id) {
    && e.FoundDirect? && InFlight(y.swaps, i, e.worker)
    && i in y.swaps.deferred && y.swaps.deferred[i].duty != DueCrosschain
  }

  predicate Marks(y: System, e: Event, i: Id) {
    e.MarkedAsDirect? && InFlight(y.swaps, i, e.worker)
  }

  /** The invoice's obligation was claimed and its fee not marked since. */
  ghost predicate Resolving(states: seq<System>, events: seq<Event>, i: Id, k: nat)
    requires k <= |events| && |states| == |events| + 1
  {
    k > 0 && (Claims(states[k - 1], events[k - 1], i)
      || (Resolving(states, events, i, k - 1) && !Marks(states[k - 1], events[k - 1], i)))
  }

  /** No delivery of the invoice is committed while it is being resolved as direct. */
  ghost predicate Uninterrupted(states: seq<System>, events: seq<Event>, i: Id, k: nat)
    requires k <= |events| && |states| == |events| + 1
  {
    forall j: nat | j < k && Commits(states[j], events[j], i) :: !Resolving(states, events, i, j)
  }

  /** Billed, or about to be, while the fee still looks unresolved. */
  predicate Exposed(y: System, i: Id) {
    i in y.swaps.fees && (i in y.books.entries || HasDuty(y.swaps, i, DueDirect)) && !Terminal(y.swaps.fees[i].state)
  }

  lemma ExposedStep(y: System, e: Event, config: Config, i: Id)
    requires LedgerOk(y.books) && Rooted(y.swaps, i) && Possible(y, e) && Exposed(After(y, e, config), i)
    ensures Claims(y, e, i) || (Exposed(y, i) && !Marks(y, e, i))
  {
    EntriesStep(y, e, config, i);
    if OfWorker(e) {
      assert InFlight(y.swaps, y.swaps.workers[e.worker].invoice, e.worker);
    }
  }

  /** A fee is exposed only inside a resolution that was begun and not completed. */
  lemma {:induction false} ExposedMeansResolving(states: seq<System>, events: seq<Event>, config: Config, i: Id, k: nat)
    requires IsHistory(states, events, config) && Fresh0(states[0]) && k < |states| && Exposed(states[k], i)
    ensures Resolving(states, events, i, k)
  {
    if k > 0 {
      HistoryRooted(states, events, config, i, k - 1);
      assert Follows(states, events, config, k - 1);
      ExposedStep(states[k - 1], events[k - 1], config, i);
      if !Claims(states[k - 1], events[k - 1], i) {
        ExposedMeansResolving(states, events, config, i, k - 1);
      }
    }
  }

  /** A delivery that finds its fee-bearing invoice billed and the fee unresolved comes inside a resolution. */
  lemma ClashIsInside(states: seq<System>, events: seq<Event>, config: Config, i: Id, k: nat)
    requires IsHistory(states, events, config) && Fresh0(states[0]) && k < |events|
    requires i in states[k].swaps.fees && !Terminal(states[k].swaps.fees[i].state) && Clashes(states[k], events[k], i)
    ensures Resolving(states, events, i, k)
  {
    ExposedMeansResolving(states, events, config, i, k);
  }

  lemma FeeIsFromTheStart(states: seq<System>, events: seq<Event>, config: Config, i: Id, j: nat, k: nat)
    requires IsHistory(states, events, config) && Fresh0(states[0]) && j <= k < |states| && i in states[k].swaps.fees
    ensures i in states[j].swaps.attempts ==>
      i in states[j].swaps.fees && states[j].swaps.fees[i].confidential == states[k].swaps.fees[i].confidential
  {
    if i in states[j].swaps.fees {
      ModeIsFixed(states, events, config, i, j, k);
    } else if i in states[j].swaps.attempts {
      FeeFreeIsFixed(states, events, config, i, j, k);
    }
  }

  /** However reconciliations overlap and crash, no credit is recorded over a confidential fee; and it is
      billed and settled both only if a delivery is committed inside an unfinished resolution. */
  lemma ConfidentialIsSafe(states: seq<System>, events: seq<Event>, config: Config, i: Id, k: nat)
    requires IsHistory(states, events, config) && Fresh0(states[0]) && k < |states|
    requires i in states[k].swaps.fees && states[k].swaps.fees[i].confidential
    ensures NoOverwrite(states, events, i, k)
    ensures Uninterrupted(states, events, i, k) ==> NoClash(states, events, i, k)
  {
    forall j: nat | j < k
      ensures !Overwrites(states[j], events[j], i)
      ensures Clashes(states[j], events[j], i) ==> Resolving(states, events, i, j)
    {
      HistoryRooted(states, events, config, i, j);
      assert Follows(states, events, config, j);
      FeeIsFromTheStart(states, events, config, i, j, k);
      if Clashes(states[j], events[j], i) {
        ClashIsInside(states, events, config, i, j);
      }
    }
  }

  // ---- public fees, one reconciliation at a time -----------------------------------------------

  lemma HeldStep(y: System, e: Event, config: Config, i: Id)
    requires Rooted(y.swaps, i) && Held(y.swaps, i) && Possible(y, e) && Leased(y, e, i)
    ensures Held(After(y, e, config).swaps, i)
  {
    if OfWorker(e) {
      assert InFlight(y.swaps, y.swaps.workers[e.worker].invoice, e.worker);
    }
    WorkersStep(y, e, config, i);
  }

  lemma {:induction false} HistoryHeld(states: seq<System>, events: seq<Event>, config: Config, i: Id, k: nat)
    requires IsHistory(states, events, config) && Fresh0(states[0]) && LeasedHistory(states, events, i) && k < |states|
    ensures Held(states[k].swaps, i)
  {
    if k > 0 {
      HistoryHeld(states, events, config, i, k - 1);
      HistoryRooted(states, events, config, i, k - 1);
      assert Follows(states, events, config, k - 1);
      HeldStep(states[k - 1], events[k - 1], config, i);
    }
  }

  /** One reconciliation at a time rules out the second failure, and the first as well if no resolution is
      cut short before a delivery. */
  lemma LeasedIsSafe(states: seq<System>, events: seq<Event>, config: Config, i: Id, k: nat)
    requires IsHistory(states, events, config) && Fresh0(states[0]) && LeasedHistory(states, events, i)
    requires k < |states| && i in states[k].swaps.fees
    ensures NoOverwrite(states, events, i, k)
    ensures Uninterrupted(states, events, i, k) ==> NoClash(states, events, i, k)
  {
    forall j: nat | j < k
      ensures !Overwrites(states[j], events[j], i)
      ensures Clashes(states[j], events[j], i) ==> Resolving(states, events, i, j)
    {
      HistoryRooted(states, events, config, i, j);
      HistoryHeld(states, events, config, i, j);
      assert Follows(states, events, config, j);
      FeeIsFromTheStart(states, events, config, i, j, k);
      if Clashes(states[j], events[j], i) {
        ClashIsInside(states, events, config, i, j);
      }
    }
  }

  /** A fee-bearing swap is not both billed in ZEC and settled through the provider: a confidential one unless
      a delivery is committed inside an unfinished resolution, a public one unless it clashes. */
  lemma NeverBilledTwice(states: seq<System>, events: seq<Event>, config: Config, i: Id, k: nat)
    requires IsHistory(states, events, config) && Fresh0(states[0]) && k < |states| && i in states[k].swaps.fees
    requires if states[k].swaps.fees[i].confidential then Uninterrupted(states, events, i, k) else NoClash(states, events, i, k)
    ensures Exclusive(states[k], i)
  {
    if states[k].swaps.fees[i].confidential {
      ConfidentialIsSafe(states, events, config, i, k);
    }
    ExclusiveWithoutClash(states, events, config, i, k);
  }

  /** Collected, direct and provider-handled are final: always for a confidential fee, and for a public one
      until a credit is recorded over a direct fee. */
  lemma FeeStatesAreFinal(states: seq<System>, events: seq<Event>, config: Config, i: Id, j: nat, k: nat)
    requires IsHistory(states, events, config) && Fresh0(states[0]) && j <= k < |states|
    requires i in states[j].swaps.fees && Terminal(states[j].swaps.fees[i].state)
    requires states[j].swaps.fees[i].confidential || NoOverwrite(states, events, i, k)
    ensures i in states[k].swaps.fees && states[k].swaps.fees[i] == states[j].swaps.fees[i]
  {
    ModeIsFixed(states, events, config, i, j, k);
    if states[j].swaps.fees[i].confidential {
      ConfidentialIsSafe(states, events, config, i, k);
    }
    PersistsWithoutOverwrite(states, events, config, i, j, k);
  }

  // ---- runs in which a fee fails --------------------------------------------------------------

  lemma Prolonged(states: seq<System>, events: seq<Event>, config: Config, e: Event) returns (states': seq<System>, events': seq<Event>)
    requires IsHistory(states, events, config) && Possible(states[|events|], e)
    ensures IsHistory(states', events', config)
    ensures events' == events + [e] && states' == states + [After(states[|events|], e, config)]
  {
    events' := events + [e];
    states' := states + [After(states[|events|], e, config)];
    forall k: nat ensures Follows(states', events', config, k) {
      assert Follows(states, events, config, k);
    }
  }

  const EMPTY := Books(map[], map[], map[], map[], map[], map[])

  lemma TwoWorkersBegin(config: Config) returns (states: seq<System>, events: seq<Event>)
    ensures IsHistory(states, events, config) && Fresh0(states[0])
    ensures states[|events|] == System(EMPTY, Swaps({0}, map[0 := FeeRow(false, Reserved)], map[0 := Deferred(0, 1, Verifying)], {},
                                                    map[1 := Worker(0, Looking), 2 := Worker(0, Looking)]))
    ensures forall y <- states :: y.books == EMPTY
  {
    states, events := [System(EMPTY, Swaps({}, map[], map[], {}, map[]))], [];
    InitialOk(EMPTY);
    states, events := Prolonged(states, events, config, Start(0, Some(false)));
    states, events := Prolonged(states, events, config, Confirm(0, 0, 1, 0));
    states, events := Prolonged(states, events, config, Begin(1, 0));
    states, events := Prolonged(states, events, config, Begin(2, 0));
  }

  lemma ResolvedByTheFirst(config: Config) returns (states: seq<System>, events: seq<Event>)
    ensures IsHistory(states, events, config) && Fresh0(states[0])
    ensures var y := states[|events|];
      && 0 in y.books.entries
      && y.swaps == Swaps({0}, map[0 := FeeRow(false, Direct)], map[0 := Deferred(0, 1, DueDirect)], {}, map[2 := Worker(0, Looking)])
  {
    states, events := TwoWorkersBegin(config);
    states, events := Prolonged(states, events, config, FoundDirect(1));
    states, events := Prolonged(states, events, config, BilledAsDirect(1, 0));
    states, events := Prolonged(states, events, config, MarkedAsDirect(1));
  }

  /** Without the lease it does happen: two reconciliations of one public fee, one seeing an
      expired route and one a delivery, leave the invoice both billed and settled, and turn its
      direct fee into a collected one. */
  lemma TwoWorkersClash(config: Config) returns (states: seq<System>, events: seq<Event>)
    ensures IsHistory(states, events, config) && Fresh0(states[0])
    ensures var y := states[|events|];
      0 in y.swaps.fees && y.swaps.fees[0] == FeeRow(false, Collected) && !Exclusive(y, 0)
  {
    states, events := ResolvedByTheFirst(config);
    states, events := Prolonged(states, events, config, FoundDelivered(2));
    states, events := Prolonged(states, events, config, FoundCredit(2));
  }

  lemma DeliveredThenExpired(config: Config) returns (states: seq<System>, events: seq<Event>)
    ensures IsHistory(states, events, config) && Fresh0(states[0])
    ensures states[|events|] == System(EMPTY, Swaps({0}, map[0 := FeeRow(false, Direct)], map[0 := Deferred(0, 1, DueCrosschain)], {0},
                                                    map[2 := Worker(0, Settled)]))
    ensures forall y <- states :: y.books == EMPTY
  {
    states, events := TwoWorkersBegin(config);
    states, events := Prolonged(states, events, config, FoundDelivered(2));
    states, events := Prolonged(states, events, config, FoundDirect(1));
    states, events := Prolonged(states, events, config, MarkedAsDirect(1));
  }

  /** Finality can fail without any clash: the delivery is committed first, then the route is seen as
      expired, then the credit is recorded over the direct fee. */
  lemma CollectedOverDirect(config: Config) returns (states: seq<System>, events: seq<Event>)
    ensures IsHistory(states, events, config) && Fresh0(states[0]) && |events| > 0
    ensures var y, z := states[|events| - 1], states[|events|];
      && 0 in y.swaps.fees && y.swaps.fees[0] == FeeRow(false, Direct)
      && 0 in z.swaps.fees && z.swaps.fees[0] == FeeRow(false, Collected)
    ensures forall y <- states :: Exclusive(y, 0)
  {
    states, events := DeliveredThenExpired(config);
    states, events := Prolonged(states, events, config, FoundCredit(2));
  }

  ghost predicate OneAtATime(y: System) {
    forall v, w :: v in y.swaps.workers && w in y.swaps.workers ==> v == w
  }

  lemma ConfidentialBegins(config: Config) returns (states: seq<System>, events: seq<Event>)
    ensures IsHistory(states, events, config) && Fresh0(states[0])
    ensures forall y <- states :: OneAtATime(y)
    ensures states[|events|] == System(EMPTY, Swaps({0}, map[0 := FeeRow(true, Reserved)], map[0 := Deferred(0, 1, Verifying)], {},
                                                    map[1 := Worker(0, Looking)]))
  {
    states, events := [System(EMPTY, Swaps({}, map[], map[], {}, map[]))], [];
    InitialOk(EMPTY);
    states, events := Prolonged(states, events, config, Start(0, Some(true)));
    states, events := Prolonged(states, events, config, Confirm(0, 0, 1, 0));
    states, events := Prolonged(states, events, config, Begin(1, 0));
  }

  lemma BilledThenCrashed(config: Config) returns (states: seq<System>, events: seq<Event>)
    ensures IsHistory(states, events, config) && Fresh0(states[0])
    ensures forall y <- states :: OneAtATime(y)
    ensures var y := states[|events|];
      && 0 in y.books.entries
      && y.swaps == Swaps({0}, map[0 := FeeRow(true, Reserved)], map[0 := Deferred(0, 1, DueDirect)], {}, map[])
  {
    states, events := ConfidentialBegins(config);
    states, events := Prolonged(states, events, config, FoundDirect(1));
    states, events := Prolonged(states, events, config, BilledAsDirect(1, 0));
    states, events := Prolonged(states, events, config, Crash(1));
  }

  /** A confidential fee fails with one reconciliation after the other: the first is cut short between
      billing and marking, the second sees a delivery. */
  lemma InterruptedResolution(config: Config) returns (states: seq<System>, events: seq<Event>)
    ensures IsHistory(states, events, config) && Fresh0(states[0])
    ensures forall y <- states :: OneAtATime(y)
    ensures var y := states[|events|];
      0 in y.swaps.fees && y.swaps.fees[0] == FeeRow(true, ProviderHandled) && !Exclusive(y, 0)
  {
    states, events := BilledThenCrashed(config);
    states, events := Prolonged(states, events, config, Begin(2, 0));
    states, events := Prolonged(states, events, config, FoundDelivered(2));
  }

  /** Resolving an obligation as direct bills it, unless the invoice was settled, and brings the entry's
      collections exactly up to date. */
  lemma ResolvedIsExact(y: System, i: Id, now: int)
    requires Inv(y.books) && i in y.swaps.deferred && y.swaps.deferred[i].duty != DueCrosschain
    ensures var b := ResolveDirect(y, i, now).books;
      && b.receipts == y.books.receipts && Exact(b, i)
      && (i in b.entries <==> i in y.books.entries || i !in y.swaps.settlements)
      && (i in b.entries ==> b.entries[i].fee == if i in y.books.entries then y.books.entries[i].fee else y.swaps.deferred[i].amount)
  {
    var d := y.swaps.deferred[i];
    var b := CreateFee(y.(swaps := SetDuty(y.swaps, i, DueDirect)), i, d.merchant, d.amount, now).books;
    InsertEntryKeeps(y.books, i, d.merchant, d.amount, now);
    assert EntryOk(b, i);
    if ReceiptsOf(b.receipts, i) == map[] {
      assert Received(b.receipts, i) == 0;
    }
  }
}
