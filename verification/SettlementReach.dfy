/** Which entries a settlement can still pay: decided by what is left of them and by the state of the one
    cycle they were charged to. */
module SettlementReach {
  import opened Sums
  import opened Books
  import opened BooksInvariant
  import opened CycleWorkflow
  import opened Settlements
  import opened BillingRuns
  import opened SettlementInvoices
  import opened MerchantDebt

  /** Something is left of the entry, and it was charged to a cycle that is not paid. */
  predicate WithinReach(b: Books, i: Id) {
    && i in b.entries && b.entries[i].collected < b.entries[i].fee
    && b.entries[i].cycle.Some? && b.entries[i].cycle.value in b.cycles
    && b.cycles[b.entries[i].cycle.value].status != Paid
  }

  /** The run ends with a settlement that pays entry `i` something. */
  ghost predicate PaysLast(states: seq<Books>, steps: seq<Step>, i: Id)
    requires |states| == |steps| + 1
  {
    && steps != [] && steps[|steps| - 1].Clear?
    && ShareOf(states[|steps| - 1], steps[|steps| - 1].cycle, steps[|steps| - 1].rows, i) > 0
  }

  /** Some run from here on pays entry `i` through a settlement. */
  ghost predicate CanBeSettled(b: Books, i: Id, config: Config) {
    exists states, steps :: IsRun(states, steps, config) && states[0] == b && PaysLast(states, steps, i)
  }

  // ---- out of reach, for good ----------------------------------------------------------------

  lemma NextStaysOut(b: Books, s: Step, config: Config, i: Id)
    requires Inv(b) && Enabled(b, s) && i in b.entries && !WithinReach(b, i)
    ensures i in Next(b, s, config).entries && !WithinReach(Next(b, s, config), i)
  {
    NextGrows(b, s, config, i);
    NextKeeps(b, s, config);
    assert EntryOk(b, i) && EntryOk(Next(b, s, config), i) && Attached(b, i);
    if b.entries[i].cycle.Some? {
      NextMoves(b, s, config, b.entries[i].cycle.value);
    }
  }

  lemma OutGetsNothing(b: Books, c: Id, rows: seq<Row>, i: Id)
    requires Inv(b) && c in b.cycles && EligibleRows(b, c, rows) && i in b.entries && !WithinReach(b, i)
    ensures ShareOf(b, c, rows, i) == 0
  {
    assert Settleable(b, c) ==> !Listed(rows, i);
  }

  /** An entry with nothing left, without a cycle or on a paid cycle stays so, and no later settlement
      pays it anything. */
  lemma {:induction false} OutOfReachForGood(states: seq<Books>, steps: seq<Step>, config: Config, i: Id, k: nat)
    requires IsRun(states, steps, config) && Inv(states[0]) && k < |states|
    requires i in states[0].entries && !WithinReach(states[0], i)
    ensures Inv(states[k]) && i in states[k].entries && !WithinReach(states[k], i)
    ensures k < |steps| && steps[k].Clear? ==> ShareOf(states[k], steps[k].cycle, steps[k].rows, i) == 0
  {
    if k > 0 {
      OutOfReachForGood(states, steps, config, i, k - 1);
      assert Stepped(states, steps, config, k - 1);
      NextKeeps(states[k - 1], steps[k - 1], config);
      NextStaysOut(states[k - 1], steps[k - 1], config, i);
    }
    assert Stepped(states, steps, config, k);
    if k < |steps| && steps[k].Clear? {
      OutGetsNothing(states[k], steps[k].cycle, steps[k].rows, i);
    }
  }

  // ---- fresh names and joined runs -----------------------------------------------------------

  lemma {:induction false} Bounded(ids: set<Id>) returns (n: Id)
    ensures forall i <- ids :: i < n
  {
    if ids == {} {
      n := 0;
    } else {
      var i :| i in ids;
      var rest := Bounded(ids - {i});
      n := if i < rest then rest else i + 1;
      assert forall j <- ids :: j == i || j in ids - {i};
    }
  }

  lemma FreshReceipt(b: Books, e: Id) returns (txid: string)
    ensures (e, Chain(txid)) !in b.receipts
  {
    var lengths := set k <- b.receipts.Keys | k.1.Chain? :: |k.1.txid| as Id;
    var n := Bounded(lengths);
    txid := seq(n, _ => '0');
    assert forall k <- b.receipts.Keys :: k.1.Chain? ==> |k.1.txid| as Id in lengths;
  }

  lemma Joined(states: seq<Books>, steps: seq<Step>, states': seq<Books>, steps': seq<Step>, config: Config)
    returns (all: seq<Books>, moves: seq<Step>)
    requires IsRun(states, steps, config) && IsRun(states', steps', config) && states[|steps|] == states'[0]
    ensures IsRun(all, moves, config) && all == states[..|steps|] + states' && moves == steps + steps'
    ensures all[0] == states[0] && all[|moves|] == states'[|steps'|]
  {
    all, moves := states[..|steps|] + states', steps + steps';
    forall k: nat
      ensures Stepped(all, moves, config, k)
    {
      if k < |steps| {
        assert Stepped(states, steps, config, k);
      } else {
        assert Stepped(states', steps', config, k - |steps|);
      }
    }
  }

  lemma JustHere(b: Books, config: Config)
    ensures IsRun([b], [], config)
  {
  }

  // ---- paying off everybody else -------------------------------------------------------------

  /** Everything about the settlement of entry `i` is as it was. */
  predicate SameFor(b: Books, b': Books, i: Id) {
    && i in b.entries && i in b'.entries && b'.entries[i] == b.entries[i] && b'.entries.Keys == b.entries.Keys
    && b'.bills == b.bills
    && forall c :: c in b.cycles ==> Stays(b, b', c)
  }

  lemma PaidOff(b: Books, e: Id, txid: string, i: Id, config: Config)
    requires Inv(b) && e in b.entries && i in b.entries && e != i && 0 < b.entries[e].fee && (e, Chain(txid)) !in b.receipts
    ensures var b' := Next(b, Receive(e, txid, b.entries[e].fee), config);
      SameFor(b, b', i) && RemainingOf(b'.entries[e]) == 0
      && forall d :: d in b.entries && d != e ==> b'.entries[d] == b.entries[d]
  {
    assert EntryOk(b, e);
    ReceivedWrite(b.receipts, (e, Chain(txid)), b.entries[e].fee, e);
    forall c | c in b.cycles
      ensures Stays(b, Next(b, Receive(e, txid, b.entries[e].fee), config), c)
    {
      LedgerStays(b, Receive(e, txid, b.entries[e].fee), config, c);
    }
  }

  predicate NothingLeft(b: Books, others: set<Id>) {
    forall e <- others :: e in b.entries ==> RemainingOf(b.entries[e]) == 0
  }

  /** Receipts can collect every other entry in full without touching entry `i`. */
  lemma {:induction false} PayOff(b: Books, i: Id, others: set<Id>, config: Config) returns (states: seq<Books>, steps: seq<Step>)
    requires Inv(b) && i in b.entries && i !in others && others <= b.entries.Keys
    ensures IsRun(states, steps, config) && states[0] == b
    ensures Inv(states[|steps|]) && SameFor(b, states[|steps|], i) && NothingLeft(states[|steps|], others)
    ensures forall d :: d in b.entries && d !in others ==> states[|steps|].entries[d] == b.entries[d]
    decreases others
  {
    if others == {} {
      JustHere(b, config);
      states, steps := [b], [];
    } else {
      var e :| e in others;
      states, steps := PayOff(b, i, others - {e}, config);
      var b1 := states[|steps|];
      assert EntryOk(b1, e);
      if 0 < b1.entries[e].fee {
        var txid := FreshReceipt(b1, e);
        PaidOff(b1, e, txid, i, config);
        NextKeeps(b1, Receive(e, txid, b1.entries[e].fee), config);
        states, steps := Extended(states, steps, config, Receive(e, txid, b1.entries[e].fee));
      }
    }
  }

  // ---- a billed cycle that reaches the entry -------------------------------------------------

  /** Cycle `c` is billed at something, and its settlement would look at entry `i`. */
  predicate Reaches(b: Books, i: Id, c: Id) {
    && WithinReach(b, i) && c in b.cycles && Billed(b.cycles[c].status)
    && b.cycles[c].bill.Some? && b.cycles[c].bill.value in b.bills && b.bills[b.cycles[c].bill.value].price > 0
    && b.cycles[c].merchant == b.entries[i].merchant
    && (b.entries[i].cycle == Some(c) || b.cycles[b.entries[i].cycle.value].status == CarriedOver)
  }

  lemma OwnCycleReaches(b: Books, i: Id)
    requires Inv(b) && WithinReach(b, i) && Billed(b.cycles[b.entries[i].cycle.value].status)
    ensures Reaches(b, i, b.entries[i].cycle.value)
  {
    var c := b.entries[i].cycle.value;
    assert BillOk(b, c) && Attached(b, i);
    LiveBalance(b, c);
  }

  /** With an open cycle at hand: charge it up to the minimum and ask for its settlement. */
  lemma AskForSettlement(b: Books, i: Id, config: Config) returns (states: seq<Books>, steps: seq<Step>, c: Id)
    requires Inv(b) && WithinReach(b, i) && OpenCycle(b.cycles, b.entries[i].merchant).Some?
    requires !Billed(b.cycles[b.entries[i].cycle.value].status)
    ensures IsRun(states, steps, config) && states[0] == b
    ensures Inv(states[|steps|]) && Reaches(states[|steps|], i, c)
  {
    var m, d := b.entries[i].merchant, b.entries[i].cycle.value;
    c := OpenCycle(b.cycles, m).value;
    assert IsOpenFor(b.cycles, m, c) && CycleOk(b, c) && Attached(b, i);
    assert b.cycles[d].status == Open ==> IsOpenFor(b.cycles, m, d);
    var e := Bounded(b.entries.Keys);
    var bill := Bounded(b.bills.Keys);
    JustHere(b, config);
    states, steps := [b], [];
    states, steps := Extended(states, steps, config, Charge(e, m, MIN_SETTLEMENT, 0));
    var b1 := states[|steps|];
    NextKeeps(b, Charge(e, m, MIN_SETTLEMENT, 0), config);
    assert b1.cycles[c].outstanding == b.cycles[c].outstanding + MIN_SETTLEMENT;
    states, steps := Extended(states, steps, config, Request(c, bill, 0, 0));
    NextKeeps(b1, Request(c, bill, 0, 0), config);
  }

  lemma OpeningFirst(b: Books, i: Id, config: Config) returns (states: seq<Books>, steps: seq<Step>)
    requires Inv(b) && WithinReach(b, i)
    ensures IsRun(states, steps, config) && states[0] == b && Inv(states[|steps|])
    ensures var b' := states[|steps|];
      && OpenCycle(b'.cycles, b.entries[i].merchant).Some? && i in b'.entries && b'.entries[i] == b.entries[i]
      && Stays(b, b', b.entries[i].cycle.value)
  {
    var m := b.entries[i].merchant;
    var id := Bounded(b.cycles.Keys);
    assert Attached(b, i) && CycleOk(b, b.entries[i].cycle.value);
    JustHere(b, config);
    states, steps := [b], [];
    states, steps := Extended(states, steps, config, OpenNew(m, id, 0));
    NextKeeps(b, OpenNew(m, id, 0), config);
    OpeningStays(b, m, id, 0, config, b.entries[i].cycle.value);
    if OpenCycle(b.cycles, m).None? {
      assert IsOpenFor(states[|steps|].cycles, m, id);
    }
  }

  lemma ComesIntoView(b: Books, i: Id, config: Config) returns (states: seq<Books>, steps: seq<Step>, c: Id)
    requires Inv(b) && WithinReach(b, i)
    ensures IsRun(states, steps, config) && states[0] == b
    ensures Inv(states[|steps|]) && Reaches(states[|steps|], i, c)
  {
    if Billed(b.cycles[b.entries[i].cycle.value].status) {
      OwnCycleReaches(b, i);
      JustHere(b, config);
      states, steps, c := [b], [], b.entries[i].cycle.value;
    } else {
      var before, opening := OpeningFirst(b, i, config);
      var after, asking, d := AskForSettlement(before[|opening|], i, config);
      states, steps := Joined(before, opening, after, asking, config);
      c := d;
    }
  }

  lemma OnlyRow(b: Books, i: Id, c: Id)
    requires Reaches(b, i, c) && NothingLeft(b, b.entries.Keys - {i})
    ensures EligibleRows(b, c, [Row(i, RemainingOf(b.entries[i]))])
  {
    var rows := [Row(i, RemainingOf(b.entries[i]))];
    assert Eligible(b, c, i) && rows[0].invoice == i;
    forall e | e in b.entries && Eligible(b, c, e)
      ensures e == i
    {
      assert e != i ==> e in b.entries.Keys - {i};
    }
  }

  lemma OnlyShare(b: Books, i: Id, c: Id)
    requires Settleable(b, c) && Budget(b, c) > 0 && i in b.entries && RemainingOf(b.entries[i]) > 0
    ensures ShareOf(b, c, [Row(i, RemainingOf(b.entries[i]))], i) > 0
  {
    var rows := [Row(i, RemainingOf(b.entries[i]))];
    assert rows[0].invoice == i;
    assert Prefix(rows, 0) == 0;
  }

  lemma IsPaidOut(b: Books, i: Id, c: Id, config: Config) returns (states: seq<Books>, steps: seq<Step>)
    requires Inv(b) && Reaches(b, i, c) && NothingLeft(b, b.entries.Keys - {i})
    ensures IsRun(states, steps, config) && states[0] == b && PaysLast(states, steps, i)
  {
    var bill := b.cycles[c].bill.value;
    var rows := [Row(i, RemainingOf(b.entries[i]))];
    JustHere(b, config);
    states, steps := [b], [];
    states, steps := Extended(states, steps, config, Pay(bill, b.bills[bill].price, true));
    var b1 := states[|steps|];
    assert Settleable(b1, c) && Reaches(b1, i, c);
    OnlyRow(b1, i, c);
    OnlyShare(b1, i, c);
    Lengthened(states, steps, config, Clear(c, rows));
    states, steps := states + [Next(b1, Clear(c, rows), config)], steps + [Clear(c, rows)];
  }

  lemma PaysAfter(states: seq<Books>, steps: seq<Step>, states': seq<Books>, steps': seq<Step>, i: Id, config: Config)
    requires IsRun(states, steps, config) && IsRun(states', steps', config) && states[|steps|] == states'[0]
    requires PaysLast(states', steps', i)
    ensures CanBeSettled(states[0], i, config)
  {
    var all, moves := Joined(states, steps, states', steps', config);
    assert PaysLast(all, moves, i);
  }

  /** Some later settlement can pay an entry if and only if something is left of it and it was charged to
      a cycle that is not paid. */
  lemma ReachIff(b: Books, i: Id, config: Config)
    requires Inv(b) && i in b.entries
    ensures CanBeSettled(b, i, config) <==> WithinReach(b, i)
  {
    if WithinReach(b, i) {
      var seen, viewing, c := ComesIntoView(b, i, config);
      var b1 := seen[|viewing|];
      var cleared, clearing := PayOff(b1, i, b1.entries.Keys - {i}, config);
      var b2 := cleared[|clearing|];
      var paid, paying := IsPaidOut(b2, i, c, config);
      var both, moves := Joined(seen, viewing, cleared, clearing, config);
      PaysAfter(both, moves, paid, paying, i, config);
    } else {
      forall states, steps | IsRun(states, steps, config) && states[0] == b && steps != []
        ensures !PaysLast(states, steps, i)
      {
        OutOfReachForGood(states, steps, config, i, |steps| - 1);
      }
    }
  }

  /** Over runs: a fee can still be settled if and only if its merchant had an open cycle when it was
      charged, that cycle is not paid, and something is left of the fee. */
  lemma BillableIff(states: seq<Books>, steps: seq<Step>, config: Config, j: nat, k: nat)
    requires IsRun(states, steps, config) && Initial(states[0]) && j < k < |states|
    requires steps[j].Charge? && steps[j].invoice !in states[j].entries
    ensures var b, i, open := states[k], steps[j].invoice, OpenCycle(states[j].cycles, steps[j].merchant);
      && i in b.entries && (open.Some? ==> open.value in b.cycles)
      && (CanBeSettled(b, i, config) <==>
          open.Some? && b.cycles[open.value].status != Paid && b.entries[i].collected < b.entries[i].fee)
  {
    OnACycleIff(states, steps, config, j, k);
    RunKeeps(states, steps, config, k);
    assert Attached(states[k], steps[j].invoice);
    ReachIff(states[k], steps[j].invoice, config);
  }
}
