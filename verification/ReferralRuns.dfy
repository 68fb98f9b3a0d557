/** Referral earnings over whole runs: invoices are issued, confirmed and refunded, fees are collected, and
    any number of reconcilers fetch receipts, accrue them one by one and crash, all interleaved. */
module ReferralRuns {
  import opened Sums
  import opened Text
  import opened Referrals

  /** The tables, the refunded invoices, and the rows each running reconciler has fetched and not yet accrued. */
  datatype Office = Office(tables: Tables, refunded: set<string>, batches: map<nat, map<Receipt, Fee>>)

  datatype Step =
    | Issue(invoice: string, merchant: string, referrer: Option<string>)
    | Confirm(invoice: string)
    | Refund(invoice: string)
    | Collect(receipt: Receipt, fee: Fee)
    | Fetch(worker: nat, rows: set<Receipt>)
    | Accrue(worker: nat, receipt: Receipt)
    | Stop(worker: nat)

  ghost predicate Enabled(o: Office, s: Step) {
    var t := o.tables;
    match s
    case Issue(i, _, _) => i !in t.invoices && NoColon(i)
    case Confirm(i) => i in t.invoices && !t.invoices[i].confirmed && i !in o.refunded
    case Refund(i) => i in t.invoices && t.invoices[i].confirmed
    case Collect(r, fee) => r !in t.receipts && r.invoice in t.invoices && 0 < fee.units && (r.Direct? ==> fee.asset == "zec")
    case Fetch(w, rows) => w !in o.batches && |rows| <= BATCH && (rows <= Pending(t, true) || rows <= Pending(t, false))
    case Accrue(w, r) => w in o.batches && r in o.batches[w]
    case Stop(_) => true
  }

  ghost function Next(o: Office, s: Step): Office
    requires Enabled(o, s)
  {
    var t := o.tables;
    match s
    case Issue(i, m, referrer) => o.(tables := t.(invoices := t.invoices[i := Invoice(m, false)], policies := t.policies[i := referrer]))
    case Confirm(i) => o.(tables := t.(invoices := t.invoices[i := t.invoices[i].(confirmed := true)]))
    case Refund(i) =>
      o.(tables := t.(invoices := t.invoices[i := t.invoices[i].(confirmed := false)]), refunded := o.refunded + {i})
    case Collect(r, fee) => o.(tables := t.(receipts := t.receipts[r := fee]))
    case Fetch(w, rows) => o.(batches := o.batches[w := map r | r in rows :: t.receipts[r]])
    case Accrue(w, r) =>
      var fee := o.batches[w][r];
      o.(tables := Accrued(t, Key(r), r.invoice, fee.asset, fee.units), batches := o.batches[w := o.batches[w] - {r}])
    case Stop(w) => o.(batches := o.batches - {w})
  }

  ghost predicate Stepped(states: seq<Office>, steps: seq<Step>, k: nat)
    requires |states| == |steps| + 1
  {
    k < |steps| ==> Enabled(states[k], steps[k]) && states[k + 1] == Next(states[k], steps[k])
  }

  /** A run from empty tables. */
  ghost predicate IsRun(states: seq<Office>, steps: seq<Step>) {
    && |states| == |steps| + 1 && states[0] == Office(Tables(map[], map[], map[], map[]), {}, map[])
    && forall k: nat {:trigger Stepped(states, steps, k)} :: Stepped(states, steps, k)
  }

  // ---- what every run keeps -------------------------------------------------------------------

  /** Earning `k` is that of receipt `r`, and goes to the referrer the invoice was issued with. */
  ghost predicate Owned(t: Tables, r: Receipt, k: string) {
    Matches(t, r, k) && r.invoice in t.policies && t.policies[r.invoice] == Some(t.earnings[k].referrer)
  }

  ghost predicate Attributed(t: Tables, k: string) {
    exists r :: Owned(t, r, k)
  }

  ghost predicate RowsCurrent(o: Office, w: nat) {
    w in o.batches ==> forall r :: r in o.batches[w] ==> r in o.tables.receipts && o.tables.receipts[r] == o.batches[w][r]
  }

  ghost predicate Orderly(o: Office) {
    && Sound(o.tables)
    && (forall k :: k in o.tables.earnings ==> Attributed(o.tables, k))
    && o.tables.policies.Keys == o.tables.invoices.Keys && (forall i :: i in o.tables.invoices ==> NoColon(i))
    && (forall w :: RowsCurrent(o, w))
  }

  /** Receipts, policies and earnings once stored stay as they are. */
  ghost predicate Grows(t: Tables, t': Tables) {
    && (forall r :: r in t.receipts ==> r in t'.receipts && t'.receipts[r] == t.receipts[r])
    && (forall i :: i in t.policies ==> i in t'.policies && t'.policies[i] == t.policies[i])
    && (forall k :: k in t.earnings ==> k in t'.earnings && t'.earnings[k] == t.earnings[k])
  }

  lemma NextGrows(o: Office, s: Step)
    requires Orderly(o) && Enabled(o, s)
    ensures Grows(o.tables, Next(o, s).tables)
  {
  }

  lemma AccrueOrderly(o: Office, w: nat, r: Receipt)
    requires Orderly(o) && Enabled(o, Accrue(w, r))
    ensures Orderly(Next(o, Accrue(w, r)))
  {
    assert RowsCurrent(o, w);
    var o' := Next(o, Accrue(w, r));
    AccruedSound(o.tables, r);
    forall k | k in o'.tables.earnings ensures Attributed(o'.tables, k) {
      if k in o.tables.earnings {
        var q :| Owned(o.tables, q, k);
        assert Owned(o'.tables, q, k);
      } else {
        assert Owned(o'.tables, r, k);
      }
    }
    forall v ensures RowsCurrent(o', v) {
      assert RowsCurrent(o, v);
    }
  }

  lemma NextOrderly(o: Office, s: Step)
    requires Orderly(o) && Enabled(o, s)
    ensures Orderly(Next(o, s))
  {
    if s.Accrue? {
      AccrueOrderly(o, s.worker, s.receipt);
    } else {
      var o' := Next(o, s);
      forall k | k in o'.tables.earnings ensures Attributed(o'.tables, k) && exists r :: Matches(o'.tables, r, k) {
        var q :| Owned(o.tables, q, k);
        assert Owned(o'.tables, q, k) && Matches(o'.tables, q, k);
      }
      forall v ensures RowsCurrent(o', v) {
        assert RowsCurrent(o, v);
      }
    }
  }

  /** From empty tables, in every state of every run: each earning is that of one collected receipt, half its
      units, owed to the referrer its invoice was issued with; and no reconciler holds an outdated row. */
  lemma {:induction false} RunIsOrderly(states: seq<Office>, steps: seq<Step>, k: nat)
    requires IsRun(states, steps) && k < |states|
    ensures Orderly(states[k])
  {
    if k > 0 {
      RunIsOrderly(states, steps, k - 1);
      assert Stepped(states, steps, k - 1);
      NextOrderly(states[k - 1], steps[k - 1]);
    }
  }

  /** An earning is for ever. */
  lemma {:induction false} EarningsAreKept(states: seq<Office>, steps: seq<Step>, j: nat, k: nat)
    requires IsRun(states, steps) && j <= k < |states|
    ensures Grows(states[j].tables, states[k].tables)
    decreases k
  {
    if j < k {
      EarningsAreKept(states, steps, j, k - 1);
      assert Stepped(states, steps, k - 1);
      RunIsOrderly(states, steps, k - 1);
      NextGrows(states[k - 1], steps[k - 1]);
    }
  }

  // ---- which receipts earn ---------------------------------------------------------------------

  /** A reconciler accrues `r` while its invoice is confirmed. */
  ghost predicate AccruesDue(o: Office, s: Step, r: Receipt) {
    s.Accrue? && s.receipt == r && Referred(o.tables, r.invoice)
  }

  ghost predicate Earned(o: Office, r: Receipt) { Owned(o.tables, r, Key(r)) }

  lemma EarnedStep(o: Office, s: Step, r: Receipt)
    requires Orderly(o) && Enabled(o, s) && Named(r)
    ensures Earned(Next(o, s), r) <==> Earned(o, r) || AccruesDue(o, s, r)
  {
    var o' := Next(o, s);
    NextGrows(o, s);
    if s.Accrue? {
      assert RowsCurrent(o, s.worker);
      if Key(r) == Key(s.receipt) {
        KeysAreDistinct(r, s.receipt);
      }
      if AccruesDue(o, s, r) {
        if Key(r) in o.tables.earnings {
          OwnedByItsReceipt(o.tables, r);
        } else {
          assert Owned(o'.tables, r, Key(r));
        }
      }
    } else if s.Collect? && s.receipt == r && Key(r) in o.tables.earnings {
      var q :| Owned(o.tables, q, Key(r));
      KeysAreDistinct(q, r);
    }
  }

  lemma OwnedByItsReceipt(t: Tables, r: Receipt)
    requires Sound(t) && r in t.receipts && Key(r) in t.earnings && Attributed(t, Key(r))
    ensures Owned(t, r, Key(r))
  {
    var q :| Owned(t, q, Key(r));
    KeysAreDistinct(q, r);
  }

  ghost predicate AccruedBefore(states: seq<Office>, steps: seq<Step>, r: Receipt, k: nat)
    requires k <= |steps| && |states| == |steps| + 1
  {
    exists j: nat :: j < k && AccruesDue(states[j], steps[j], r)
  }

  /** However reconcilers, collections, confirmations and refunds interleave: a receipt has its earning if and
      only if some reconciler came to it while its invoice was confirmed. One that nobody accrued before the
      refund never earns. */
  lemma {:induction false} EarnedIff(states: seq<Office>, steps: seq<Step>, r: Receipt, k: nat)
    requires IsRun(states, steps) && k < |states| && Named(r)
    ensures Earned(states[k], r) <==> AccruedBefore(states, steps, r, k)
  {
    if k > 0 {
      EarnedIff(states, steps, r, k - 1);
      RunIsOrderly(states, steps, k - 1);
      assert Stepped(states, steps, k - 1);
      EarnedStep(states[k - 1], steps[k - 1], r);
      if AccruesDue(states[k - 1], steps[k - 1], r) {
        assert AccruedBefore(states, steps, r, k);
      }
    }
  }

  // ---- reconciliation catches up from anywhere -----------------------------------------------------

  lemma Prolonged(states: seq<Office>, steps: seq<Step>, s: Step) returns (states': seq<Office>, steps': seq<Step>)
    requires IsRun(states, steps) && Enabled(states[|steps|], s)
    ensures IsRun(states', steps') && steps' == steps + [s] && states' == states + [Next(states[|steps|], s)]
  {
    steps' := steps + [s];
    states' := states + [Next(states[|steps|], s)];
    forall k: nat ensures Stepped(states', steps', k) {
      assert Stepped(states, steps, k);
    }
  }

  lemma CatchUpOne(states: seq<Office>, steps: seq<Step>, swaps: bool) returns (states': seq<Office>, steps': seq<Step>)
    requires IsRun(states, steps) && Pending(states[|steps|].tables, swaps) != {}
    ensures IsRun(states', steps') && states <= states' && steps <= steps'
    ensures var t, t' := states[|steps|].tables, states'[|steps'|].tables;
      && Minted(t, t')
      && |Pending(t', swaps)| < |Pending(t, swaps)| && Pending(t', !swaps) == Pending(t, !swaps)
  {
    var t := states[|steps|].tables;
    var r :| r in Pending(t, swaps);
    RunIsOrderly(states, steps, |steps|);
    states', steps' := Prolonged(states, steps, Stop(0));
    states', steps' := Prolonged(states', steps', Fetch(0, {r}));
    states', steps' := Prolonged(states', steps', Accrue(0, r));
    AccruedSound(t, r);
    assert Pending(t, !swaps) - {r} == Pending(t, !swaps);
  }

  /** From any reached state, with whatever batches in flight, reconciliation alone can go on until exactly
      the due receipts not earned before have been minted and every due receipt has exactly its earning. */
  lemma {:induction false} CatchUp(states: seq<Office>, steps: seq<Step>) returns (states': seq<Office>, steps': seq<Step>)
    requires IsRun(states, steps)
    ensures IsRun(states', steps') && states <= states' && steps <= steps'
    ensures Minted(states[|steps|].tables, states'[|steps'|].tables) && Complete(states'[|steps'|].tables)
    decreases |Pending(states[|steps|].tables, true)| + |Pending(states[|steps|].tables, false)|
  {
    var t := states[|steps|].tables;
    if Pending(t, true) == {} && Pending(t, false) == {} {
      RunIsOrderly(states, steps, |steps|);
      NothingPending(t);
      states', steps' := states, steps;
    } else {
      var next, steps1 := CatchUpOne(states, steps, Pending(t, true) != {});
      states', steps' := CatchUp(next, steps1);
      MintedTwice(t, next[|steps1|].tables, states'[|steps'|].tables);
    }
  }
}
