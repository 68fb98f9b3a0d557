/** Many workers recording receipts at once. A call to record a receipt is three separate
    transactions: insert the receipt, sum the receipts, apply the sum. Here any number of calls, for
    any invoices, interleave in any order, while all other billing work goes on, settlements of the
    same invoices included. */
module ConcurrentReceipts {
  import opened Sums
  import opened Books
  import opened BooksInvariant
  import opened CycleWorkflow
  import opened Settlements
  import opened BillingRuns

  datatype Phase = Ready | Inserted | Summed(total: int) | Done
  datatype Call = Call(invoice: Id, txid: string, units: int)
  datatype World = World(books: Books, phases: seq<Phase>)

  /** Either some worker takes its next transaction, or other billing work happens. */
  datatype Move = Work(worker: nat) | Other(step: Step)

  ghost predicate Bystander(b: Books, s: Step) {
    !s.Receive? && !s.Note? && !s.Apply? && Enabled(b, s)
  }

  ghost function Act(calls: seq<Call>, w: World, m: Move, config: Config): World
    requires |w.phases| == |calls|
  {
    match m
    case Other(s) => if Bystander(w.books, s) then w.(books := Next(w.books, s, config)) else w
    case Work(k) =>
      if k >= |calls| || calls[k].units <= 0 then w
      else
        match w.phases[k]
        case Ready => World(InsertReceipt(w.books, calls[k].invoice, Chain(calls[k].txid), calls[k].units), w.phases[k := Inserted])
        case Inserted => w.(phases := w.phases[k := Summed(Received(w.books.receipts, calls[k].invoice))])
        case Summed(total) => World(ApplyCollected(w.books, calls[k].invoice, total), w.phases[k := Done])
        case Done => w
  }

  ghost function Play(calls: seq<Call>, w: World, moves: seq<Move>, config: Config): (w': World)
    requires |w.phases| == |calls|
    ensures |w'.phases| == |calls|
  {
    if moves == [] then w else Act(calls, Play(calls, w, moves[..|moves| - 1], config), moves[|moves| - 1], config)
  }

  predicate Serves(calls: seq<Call>, k: nat, i: Id) { k < |calls| && calls[k].invoice == i && 0 < calls[k].units }

  /** The sum is enough to bring entry `i` up to date. */
  ghost predicate Reaches(b: Books, i: Id, total: int)
    requires i in b.entries
  {
    Min(b.entries[i].fee, Received(b.receipts, i)) <= total
  }

  /** Call `k` serves invoice `i` and has not summed its receipts yet. */
  predicate Unsummed(calls: seq<Call>, w: World, i: Id, k: nat)
    requires |w.phases| == |calls|
  {
    Serves(calls, k, i) && (w.phases[k] == Ready || w.phases[k] == Inserted)
  }

  /** Call `k` will still bring entry `i` up to date. */
  ghost predicate Pending(calls: seq<Call>, w: World, i: Id, k: nat)
    requires |w.phases| == |calls| && i in w.books.entries
  {
    Unsummed(calls, w, i, k) || (Serves(calls, k, i) && w.phases[k].Summed? && Reaches(w.books, i, w.phases[k].total))
  }

  predicate Served(calls: seq<Call>, i: Id) {
    exists k: nat | k < |calls| :: Serves(calls, k, i)
  }

  /** No sum held by a worker runs ahead of the receipts. */
  ghost predicate SumsOk(calls: seq<Call>, w: World)
    requires |w.phases| == |calls|
  {
    forall k :: 0 <= k < |calls| && w.phases[k].Summed? ==> w.phases[k].total <= Received(w.books.receipts, calls[k].invoice)
  }

  /** What a cycle was credited, less what its entries collected. */
  ghost function Uncredited(b: Books, c: Id): int
    requires c in b.cycles
  {
    b.cycles[c].auto - Total(Column(b.entries, c, CollectedOf))
  }

  predicate CreditsKept(b: Books, b': Books) {
    forall c :: c in b.cycles ==> c in b'.cycles && b'.cycles[c].auto == b.cycles[c].auto
  }

  lemma OpeningFrame(b: Books, m: Id, c: Id, now: int, config: Config)
    ensures LedgerKept(b, EnsureCycle(b, m, c, now, config))
  {
  }

  lemma ChargeFrame(b: Books, i: Id, m: Id, fee: nat, now: int)
    ensures var b' := InsertEntry(b, i, m, fee, now);
      b'.receipts == b.receipts && CreditsKept(b, b')
  {
  }

  predicate LedgerKept(b: Books, b': Books) { b'.receipts == b.receipts && b'.entries == b.entries && CreditsKept(b, b') }

  lemma CloseFrame(b: Books, c: Id, bill: Id, now: int, begun: int, stamp: int)
    ensures LedgerKept(b, CloseCycle(b, c, bill, now, begun, stamp))
  {
  }

  lemma RequestFrame(b: Books, c: Id, bill: Id, stamp: int, later: int)
    ensures LedgerKept(b, RequestSettlement(b, c, bill, stamp, later))
  {
  }

  lemma OverdueFrame(b: Books, c: Id, now: int)
    ensures LedgerKept(b, Overdue(b, c, now))
  {
  }

  lemma SuspendFrame(b: Books, c: Id, now: int)
    ensures LedgerKept(b, Suspend(b, c, now))
  {
  }

  lemma BystanderFrame(b: Books, s: Step, config: Config)
    requires Bystander(b, s) && !s.Clear?
    ensures var b' := Next(b, s, config);
      && b'.receipts == b.receipts
      && b'.entries == (if s.Charge? then InsertEntry(b, s.invoice, s.merchant, s.fee, s.now).entries else b.entries)
      && CreditsKept(b, b')
  {
    if s.OpenNew? {
      OpeningFrame(b, s.merchant, s.cycle, s.now, config);
    } else if s.Charge? {
      ChargeFrame(b, s.invoice, s.merchant, s.fee, s.now);
    } else if s.Close? {
      CloseFrame(b, s.cycle, s.bill, s.now, s.begun, s.stamp);
    } else if s.Request? {
      RequestFrame(b, s.cycle, s.bill, s.stamp, s.later);
    } else if s.MarkOverdue? {
      OverdueFrame(b, s.cycle, s.now);
    } else if s.MarkSuspended? {
      SuspendFrame(b, s.cycle, s.now);
    }
  }

  lemma ActKeeps(calls: seq<Call>, w: World, m: Move, config: Config)
    requires |w.phases| == |calls| && Inv(w.books) && SumsOk(calls, w)
    ensures |Act(calls, w, m, config).phases| == |calls|
    ensures Inv(Act(calls, w, m, config).books) && SumsOk(calls, Act(calls, w, m, config))
  {
    match m
    case Other(s) =>
      if Bystander(w.books, s) {
        NextKeeps(w.books, s, config);
        if s.Clear? {
          forall i: Id
            ensures Received(w.books.receipts, i) <= Received(Next(w.books, s, config).receipts, i)
          {
            SettlePays(w.books, s.cycle, s.rows, i);
          }
        } else {
          BystanderFrame(w.books, s, config);
        }
      }
    case Work(k) =>
      if k < |calls| && 0 < calls[k].units {
        match w.phases[k]
        case Ready => InsertReceiptKeeps(w.books, calls[k].invoice, calls[k].txid, calls[k].units);
        case Summed(total) => ApplyCollectedKeeps(w.books, calls[k].invoice, total);
        case _ =>
      }
  }

  ghost predicate UpToDate(calls: seq<Call>, w: World, i: Id)
    requires |w.phases| == |calls| && i in w.books.entries
  {
    (exists k: nat :: Pending(calls, w, i, k)) || Exact(w.books, i)
  }

  /** A sum read earlier, then applied: the entry is up to date afterwards exactly when the sum is still
      enough or the entry was up to date already. */
  lemma StaleSum(b: Books, i: Id, received: int)
    requires Inv(b) && i in b.entries && received <= Received(b.receipts, i)
    ensures Exact(ApplyCollected(b, i, received), i) <==> Reaches(b, i, received) || Exact(b, i)
  {
    assert EntryOk(b, i);
  }

  /** Nothing about the entry and its calls changes: neither does being up to date. */
  lemma SameUpToDate(calls: seq<Call>, w: World, w': World, i: Id)
    requires |w.phases| == |calls| == |w'.phases| && i in w.books.entries && i in w'.books.entries
    requires w'.books.entries[i] == w.books.entries[i] && Received(w'.books.receipts, i) == Received(w.books.receipts, i)
    requires forall k: nat :: Serves(calls, k, i) ==> w'.phases[k] == w.phases[k]
    ensures UpToDate(calls, w', i) <==> UpToDate(calls, w, i)
  {
    assert forall k: nat :: Pending(calls, w', i, k) <==> Pending(calls, w, i, k);
  }

  lemma ApplyUpToDate(calls: seq<Call>, w: World, k: nat, config: Config, i: Id)
    requires |w.phases| == |calls| && Inv(w.books) && SumsOk(calls, w) && i in w.books.entries
    requires Serves(calls, k, i) && w.phases[k].Summed?
    ensures i in Act(calls, w, Work(k), config).books.entries
    ensures UpToDate(calls, Act(calls, w, Work(k), config), i) <==> UpToDate(calls, w, i)
  {
    var w' := Act(calls, w, Work(k), config);
    StaleSum(w.books, i, w.phases[k].total);
    if Reaches(w.books, i, w.phases[k].total) {
      assert Pending(calls, w, i, k);
    } else {
      forall j: nat ensures Pending(calls, w', i, j) <==> Pending(calls, w, i, j) {
      }
    }
  }

  /** No step of a call, its own or another's, changes whether the entry is up to date. */
  lemma WorkUpToDate(calls: seq<Call>, w: World, k: nat, config: Config, i: Id)
    requires |w.phases| == |calls| && Inv(w.books) && SumsOk(calls, w) && i in w.books.entries
    ensures |Act(calls, w, Work(k), config).phases| == |calls| && i in Act(calls, w, Work(k), config).books.entries
    ensures UpToDate(calls, Act(calls, w, Work(k), config), i) <==> UpToDate(calls, w, i)
  {
    var w' := Act(calls, w, Work(k), config);
    if Serves(calls, k, i) && (w.phases[k] == Ready || w.phases[k] == Inserted) {
      assert Pending(calls, w, i, k) && Pending(calls, w', i, k);
    } else if Serves(calls, k, i) && w.phases[k].Summed? {
      ApplyUpToDate(calls, w, k, config, i);
    } else {
      if k < |calls| && w.phases[k] == Ready && (calls[k].invoice, Chain(calls[k].txid)) !in w.books.receipts {
        ReceivedWrite(w.books.receipts, (calls[k].invoice, Chain(calls[k].txid)), calls[k].units, i);
      }
      SameUpToDate(calls, w, w', i);
    }
  }

  /** The move is a settlement that pays entry `i` something. */
  ghost predicate Pays(b: Books, m: Move, i: Id) {
    m.Other? && m.step.Clear? && Bystander(b, m.step) && ShareOf(b, m.step.cycle, m.step.rows, i) > 0
  }

  /** What can be read off before a settlement pays entry `i`: it does no harm if some call for the
      invoice has still to sum its receipts, or holds a sum that covers the fee, or the entry is up to
      date, or the payment completes it. */
  ghost predicate Harmless(calls: seq<Call>, w: World, m: Move, i: Id)
    requires |w.phases| == |calls| && i in w.books.entries && Pays(w.books, m, i)
  {
    || (exists k: nat :: Unsummed(calls, w, i, k))
    || (exists k: nat :: Serves(calls, k, i) && w.phases[k].Summed? && w.phases[k].total >= w.books.entries[i].fee)
    || Exact(w.books, i)
    || ShareOf(w.books, m.step.cycle, m.step.rows, i) == RemainingOf(w.books.entries[i])
  }

  /** After a settlement that pays it, the entry is up to date if and only if the settlement was harmless. */
  lemma PaymentUpToDate(calls: seq<Call>, w: World, m: Move, config: Config, i: Id)
    requires |w.phases| == |calls| && Inv(w.books) && SumsOk(calls, w) && i in w.books.entries && Pays(w.books, m, i)
    ensures i in Act(calls, w, m, config).books.entries
    ensures UpToDate(calls, Act(calls, w, m, config), i) <==> Harmless(calls, w, m, i)
  {
    var w' := Act(calls, w, m, config);
    var e, share := w.books.entries[i], ShareOf(w.books, m.step.cycle, m.step.rows, i);
    SettlePays(w.books, m.step.cycle, m.step.rows, i);
    NextKeeps(w.books, m.step, config);
    assert EntryOk(w.books, i) && EntryOk(w'.books, i);
    forall k: nat
      ensures Pending(calls, w', i, k) <==>
        Unsummed(calls, w, i, k) || (Serves(calls, k, i) && w.phases[k].Summed? && w.phases[k].total >= e.fee)
    {
    }
    assert Exact(w'.books, i) <==> Exact(w.books, i) || share == RemainingOf(e);
  }

  lemma ActUpToDate(calls: seq<Call>, w: World, m: Move, config: Config, i: Id)
    requires |w.phases| == |calls| && Inv(w.books) && SumsOk(calls, w) && i in w.books.entries
    ensures |Act(calls, w, m, config).phases| == |calls| && i in Act(calls, w, m, config).books.entries
    ensures UpToDate(calls, Act(calls, w, m, config), i) <==> if Pays(w.books, m, i) then Harmless(calls, w, m, i) else UpToDate(calls, w, i)
  {
    match m
    case Work(k) => WorkUpToDate(calls, w, k, config, i);
    case Other(s) =>
      if Pays(w.books, m, i) {
        PaymentUpToDate(calls, w, m, config, i);
      } else if Bystander(w.books, s) {
        if s.Clear? {
          SettlePays(w.books, s.cycle, s.rows, i);
        } else {
          BystanderFrame(w.books, s, config);
        }
        SameUpToDate(calls, w, Act(calls, w, m, config), i);
      }
  }

  lemma {:induction false} PlayKeeps(calls: seq<Call>, w: World, moves: seq<Move>, config: Config)
    requires |w.phases| == |calls| && Inv(w.books) && SumsOk(calls, w)
    ensures Inv(Play(calls, w, moves, config).books) && SumsOk(calls, Play(calls, w, moves, config))
    decreases |moves|
  {
    if moves != [] {
      PlayKeeps(calls, w, moves[..|moves| - 1], config);
      ActKeeps(calls, Play(calls, w, moves[..|moves| - 1], config), moves[|moves| - 1], config);
    }
  }

  /** The last move that was a settlement paying entry `i`. */
  ghost function LastPayment(calls: seq<Call>, w: World, moves: seq<Move>, config: Config, i: Id): (n: Option<nat>)
    requires |w.phases| == |calls|
    ensures n.Some? ==> n.value < |moves| && Pays(Play(calls, w, moves[..n.value], config).books, moves[n.value], i)
  {
    if moves == [] then None
    else if Pays(Play(calls, w, moves[..|moves| - 1], config).books, moves[|moves| - 1], i) then Some(|moves| - 1)
    else
      var n := LastPayment(calls, w, moves[..|moves| - 1], config, i);
      assert n.Some? ==> moves[..|moves| - 1][..n.value] == moves[..n.value];
      n
  }

  lemma {:induction false} PlayUpToDate(calls: seq<Call>, w: World, moves: seq<Move>, config: Config, i: Id)
    requires |w.phases| == |calls| && Inv(w.books) && SumsOk(calls, w) && i in w.books.entries
    ensures i in Play(calls, w, moves, config).books.entries
    ensures var n := LastPayment(calls, w, moves, config, i);
      && (n.Some? ==> i in Play(calls, w, moves[..n.value], config).books.entries)
      && (UpToDate(calls, Play(calls, w, moves, config), i) <==>
          if n.None? then UpToDate(calls, w, i) else Harmless(calls, Play(calls, w, moves[..n.value], config), moves[n.value], i))
    decreases |moves|
  {
    if moves != [] {
      var before := moves[..|moves| - 1];
      PlayUpToDate(calls, w, before, config, i);
      PlayKeeps(calls, w, before, config);
      ActUpToDate(calls, Play(calls, w, before, config), moves[|moves| - 1], config, i);
      var n := LastPayment(calls, w, before, config, i);
      assert n.Some? ==> before[..n.value] == moves[..n.value];
    }
  }

  /** However the calls interleave with each other and with all other billing work, once the calls for a
      served invoice are done its entry has collected exactly the smaller of its fee and its distinct
      receipts, if and only if the last settlement that paid it, if any did, was harmless. */
  lemma AllReceiptsCount(calls: seq<Call>, b: Books, moves: seq<Move>, config: Config, i: Id)
    requires Inv(b) && i in b.entries && (Served(calls, i) || Exact(b, i))
    requires forall k: nat :: Serves(calls, k, i) ==> Play(calls, World(b, seq(|calls|, _ => Ready)), moves, config).phases[k] == Done
    ensures var w := World(b, seq(|calls|, _ => Ready));
      var n := LastPayment(calls, w, moves, config, i);
      && (n.Some? ==> i in Play(calls, w, moves[..n.value], config).books.entries)
      && (Exact(Play(calls, w, moves, config).books, i) <==>
          n.None? || Harmless(calls, Play(calls, w, moves[..n.value], config), moves[n.value], i))
  {
    var w := World(b, seq(|calls|, _ => Ready));
    if Served(calls, i) {
      var k: nat :| k < |calls| && Serves(calls, k, i);
      assert Pending(calls, w, i, k);
    }
    PlayUpToDate(calls, w, moves, config, i);
    assert forall k: nat :: !Pending(calls, Play(calls, w, moves, config), i, k);
  }

  /** The move settles no entry of cycle `c`. */
  predicate SparesCycle(b: Books, m: Move, c: Id) { m.Other? && m.step.Clear? ==> RowsOutside(b, m.step.rows, c) }

  lemma ActCredits(calls: seq<Call>, w: World, m: Move, config: Config, c: Id)
    requires |w.phases| == |calls| && Inv(w.books) && c in w.books.cycles && SparesCycle(w.books, m, c)
    ensures c in Act(calls, w, m, config).books.cycles
    ensures Uncredited(Act(calls, w, m, config).books, c) == Uncredited(w.books, c)
  {
    var b := w.books;
    match m
    case Other(s) =>
      if !Bystander(b, s) {
      } else if s.Clear? {
        SettleSparesCycle(b, s.cycle, s.rows, c);
      } else {
        BystanderFrame(b, s, config);
        if s.Charge? && s.invoice !in b.entries {
          ColumnWrite(b.entries, s.invoice, Entry(s.merchant, s.fee, 0, false, OpenCycle(b.cycles, s.merchant), s.now), c, CollectedOf);
        }
      }
    case Work(k) =>
      if k < |calls| && 0 < calls[k].units && w.phases[k].Summed? && calls[k].invoice in b.entries {
        var e := b.entries[calls[k].invoice];
        ColumnWrite(b.entries, calls[k].invoice, Collect(e, w.phases[k].total), c, CollectedOf);
      }
  }

  /** Every cycle none of whose entries is settled is credited exactly what they newly collected: its
      counter moves with their total. */
  lemma {:induction false} CreditsMatchCollections(calls: seq<Call>, w: World, moves: seq<Move>, config: Config, c: Id)
    requires |w.phases| == |calls| && Inv(w.books) && SumsOk(calls, w) && c in w.books.cycles
    requires forall k :: 0 <= k < |moves| ==> SparesCycle(Play(calls, w, moves[..k], config).books, moves[k], c)
    ensures var b' := Play(calls, w, moves, config).books;
      && c in b'.cycles
      && b'.cycles[c].auto - w.books.cycles[c].auto
      == Total(Column(b'.entries, c, CollectedOf)) - Total(Column(w.books.entries, c, CollectedOf))
    decreases |moves|
  {
    if moves != [] {
      var before := moves[..|moves| - 1];
      assert forall k :: 0 <= k < |before| ==> before[..k] == moves[..k];
      CreditsMatchCollections(calls, w, before, config, c);
      PlayKeeps(calls, w, before, config);
      ActCredits(calls, Play(calls, w, before, config), moves[|moves| - 1], config, c);
      assert Uncredited(Play(calls, w, moves, config).books, c) == Uncredited(w.books, c);
    }
  }
}
