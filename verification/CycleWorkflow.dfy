/** Opening, closing, carrying over, invoicing and chasing billing cycles. */
module CycleWorkflow {
  import opened Sums
  import opened Books
  import opened BooksInvariant

  lemma SetStatusKeeps(b: Books, c: Id, s: Status)
    requires Inv(b) && c in b.cycles && b.cycles[c].status != Paid && s != Open
    requires Live(s) ==> Live(b.cycles[c].status)
    requires Billed(s) ==> Billed(b.cycles[c].status)
    requires LateCycleOf(b, b.cycles[c].merchant, c) ==> s == PastDue || s == Suspended
    ensures Inv(SetStatus(b, c, s))
  {
    var b' := SetStatus(b, c, s);
    forall d
      ensures BalanceOk(b', d) && CycleOk(b', d) && BillOk(b', d)
    {
      assert BalanceOk(b, d) && CycleOk(b, d) && BillOk(b, d);
    }
    forall i
      ensures EntryOk(b', i) && Attached(b', i)
    {
      assert EntryOk(b, i) && Attached(b, i);
    }
    assert forall m, d :: IsOpenFor(b'.cycles, m, d) ==> IsOpenFor(b.cycles, m, d);
    assert forall d, bill :: BilledBy(b'.cycles, d, bill) ==> BilledBy(b.cycles, d, bill);
    assert forall d, bill :: PaidWith(b, d, bill) ==> PaidWith(b', d, bill);
    assert forall m, d :: LateCycleOf(b, m, d) ==> LateCycleOf(b', m, d);
  }

  /** The ledger does not depend on the merchants' tiers and standings. */
  lemma MerchantsKeep(b: Books, merchants: map<Id, Merchant>)
    requires LedgerOk(b) && merchants.Keys == b.merchants.Keys
    ensures LedgerOk(b.(merchants := merchants))
    ensures forall n, c :: LateCycleOf(b, n, c) ==> LateCycleOf(b.(merchants := merchants), n, c)
  {
    var b' := b.(merchants := merchants);
    forall c
      ensures CycleOk(b', c) && BalanceOk(b', c) && BillOk(b', c)
    {
      assert CycleOk(b, c) && BalanceOk(b, c) && BillOk(b, c);
    }
    forall i
      ensures EntryOk(b', i) && Attached(b', i)
    {
      assert EntryOk(b, i) && Attached(b, i);
    }
    assert forall c, bill :: PaidWith(b, c, bill) ==> PaidWith(b', c, bill);
  }

  lemma SetStandingKeeps(b: Books, m: Id, standing: Standing)
    requires LedgerOk(b)
    requires forall n :: n in b.merchants && n != m && b.merchants[n].standing != Active ==> exists c :: LateCycleOf(b, n, c)
    requires standing != Active ==> exists c :: LateCycleOf(b, m, c)
    ensures Inv(SetStanding(b, m, standing))
  {
    if m in b.merchants {
      MerchantsKeep(b, SetStanding(b, m, standing).merchants);
    }
  }

  lemma AddBillKeeps(b: Books, bill: Id, row: Bill)
    requires Inv(b)
    requires bill in b.bills ==> row.price == b.bills[bill].price && row.createdAt == b.bills[bill].createdAt && row.begun == b.bills[bill].begun
    ensures Inv(b.(bills := b.bills[bill := row]))
  {
    var b' := b.(bills := b.bills[bill := row]);
    forall c
      ensures CycleOk(b', c) && BalanceOk(b', c) && BillOk(b', c)
    {
      assert CycleOk(b, c) && BalanceOk(b, c) && BillOk(b, c);
    }
    forall i
      ensures EntryOk(b', i) && Attached(b', i)
    {
      assert EntryOk(b, i) && Attached(b, i);
    }
    assert forall c, s :: PaidWith(b, c, s) ==> PaidWith(b', c, s);
    assert forall n, c :: LateCycleOf(b, n, c) ==> LateCycleOf(b', n, c);
  }

  /** Invoicing an open cycle at what it owes, with at least a week of grace. */
  lemma InvoiceKeeps(b: Books, c: Id, bill: Id, begun: int, stamp: int, grace: int)
    requires Inv(b) && c in b.cycles && b.cycles[c].status == Open && bill !in b.bills
    requires begun <= stamp && grace >= begun + 7 * DAY
    ensures Inv(Invoice(b, c, bill, begun, stamp, grace))
  {
    var b' := Invoice(b, c, bill, begun, stamp, grace);
    forall d
      ensures BalanceOk(b', d) && CycleOk(b', d) && BillOk(b', d)
    {
      assert BalanceOk(b, d) && CycleOk(b, d) && BillOk(b, d);
    }
    forall i
      ensures EntryOk(b', i) && Attached(b', i)
    {
      assert EntryOk(b, i) && Attached(b, i);
    }
    assert forall m, d :: IsOpenFor(b'.cycles, m, d) ==> IsOpenFor(b.cycles, m, d);
    forall s, d, e | BilledBy(b'.cycles, d, s) && BilledBy(b'.cycles, e, s)
      ensures d == e
    {
      assert BillOk(b, d) && BillOk(b, e);
      assert d != c ==> BilledBy(b.cycles, d, s);
      assert e != c ==> BilledBy(b.cycles, e, s);
    }
    assert forall d, s :: PaidWith(b, d, s) ==> PaidWith(b', d, s);
    assert forall m, d :: LateCycleOf(b, m, d) ==> LateCycleOf(b', m, d);
  }

  lemma CarriedNonNegative(b: Books, m: Id)
    requires CyclesOk(b)
    ensures 0 <= Total(CarriedOverOf(b.cycles, m))
  {
    forall c | c in CarriedOverOf(b.cycles, m)
      ensures 0 <= CarriedOverOf(b.cycles, m)[c]
    {
      assert CycleOk(b, c);
    }
    TotalNonNegative(CarriedOverOf(b.cycles, m));
  }

  lemma EnsureCycleBalance(b: Books, m: Id, id: Id, now: int, config: Config, c: Id)
    requires LedgerOk(b)
    ensures BalanceOk(EnsureCycle(b, m, id, now, config), c)
  {
    assert BalanceOk(b, c);
    if c == id && id !in b.cycles {
      forall i
        ensures !(i in b.entries && b.entries[i].cycle == Some(id))
      {
        assert Attached(b, i);
      }
      assert Column(b.entries, id, FeeOf) == map[] && Column(b.entries, id, CollectedOf) == map[];
    }
  }

  lemma EnsureCycleKeeps(b: Books, m: Id, id: Id, now: int, config: Config)
    requires Inv(b)
    ensures Inv(EnsureCycle(b, m, id, now, config))
  {
    var b' := EnsureCycle(b, m, id, now, config);
    if b' != b {
      CarriedNonNegative(b, m);
      forall c
        ensures BalanceOk(b', c) && CycleOk(b', c) && BillOk(b', c)
      {
        EnsureCycleBalance(b, m, id, now, config, c);
        assert CycleOk(b, c) && BillOk(b, c);
      }
      forall i
        ensures EntryOk(b', i) && Attached(b', i)
      {
        assert EntryOk(b, i) && Attached(b, i);
      }
      assert forall n, d :: IsOpenFor(b'.cycles, n, d) && d != id ==> IsOpenFor(b.cycles, n, d);
      assert forall d, bill :: BilledBy(b'.cycles, d, bill) ==> BilledBy(b.cycles, d, bill);
      assert forall d, bill :: PaidWith(b, d, bill) ==> PaidWith(b', d, bill);
      assert forall n, d :: LateCycleOf(b, n, d) ==> LateCycleOf(b', n, d);
    }
  }

  lemma OpenedTotal(b: Books, m: Id, id: Id, now: int, config: Config)
    requires CyclesOk(b) && EnsureCycle(b, m, id, now, config) != b
    ensures Total(OutstandingOf(EnsureCycle(b, m, id, now, config).cycles, m)) == Total(OutstandingOf(b.cycles, m))
  {
    var moved := Total(CarriedOverOf(b.cycles, m));
    var kept := if moved > 0 then Zeroed(b.cycles, m) else b.cycles;
    CarriedNonNegative(b, m);
    assert OutstandingOf(EnsureCycle(b, m, id, now, config).cycles, m) == OutstandingOf(kept, m)[id := moved];
    TotalWrite(OutstandingOf(kept, m), id, moved);
    if moved > 0 {
      ZeroedTotal(b, m);
    }
  }

  /** Moving carried-over debt into a new cycle neither creates nor loses any of it. */
  lemma CarryOverConserves(b: Books, m: Id, id: Id, now: int, config: Config, n: Id)
    requires Inv(b)
    ensures Total(OutstandingOf(EnsureCycle(b, m, id, now, config).cycles, n)) == Total(OutstandingOf(b.cycles, n))
  {
    if EnsureCycle(b, m, id, now, config) != b {
      if n == m {
        OpenedTotal(b, m, id, now, config);
      } else {
        assert OutstandingOf(EnsureCycle(b, m, id, now, config).cycles, n) == OutstandingOf(b.cycles, n);
      }
    }
  }

  lemma ZeroedTotal(b: Books, m: Id)
    requires CyclesOk(b)
    ensures Total(OutstandingOf(Zeroed(b.cycles, m), m)) == Total(OutstandingOf(b.cycles, m)) - Total(CarriedOverOf(b.cycles, m))
  {
    var all := OutstandingOf(b.cycles, m);
    var moved := CarriedOverOf(b.cycles, m);
    var padded := map c | c in all :: At(moved, c);
    TotalPadded(moved, padded);
    forall c | c in all
      ensures OutstandingOf(Zeroed(b.cycles, m), m)[c] == all[c] - padded[c]
    {
      assert CycleOk(b, c);
    }
    TotalDifference(all, padded, OutstandingOf(Zeroed(b.cycles, m), m));
  }

  lemma CloseCycleKeeps(b: Books, c: Id, bill: Id, now: int, begun: int, stamp: int)
    requires Inv(b) && begun <= stamp
    ensures Inv(CloseCycle(b, c, bill, now, begun, stamp))
  {
    var b' := CloseCycle(b, c, bill, now, begun, stamp);
    if b' != b {
      if b.cycles[c].outstanding <= 0 {
        SetStatusKeeps(b, c, Paid);
      } else if b.cycles[c].outstanding < MIN_SETTLEMENT {
        SetStatusKeeps(b, c, CarriedOver);
      } else {
        InvoiceKeeps(b, c, bill, begun, stamp, begun + GraceDays(b.merchants[b.cycles[c].merchant].tier) * DAY);
      }
    }
  }

  lemma RequestSettlementKeeps(b: Books, c: Id, bill: Id, stamp: int, later: int)
    requires Inv(b) && stamp <= later
    ensures Inv(RequestSettlement(b, c, bill, stamp, later))
  {
    var b' := RequestSettlement(b, c, bill, stamp, later);
    if b' != b {
      if b.cycles[c].status == Open {
        InvoiceKeeps(b, c, bill, stamp, stamp, later + 7 * DAY);
      } else {
        AddBillKeeps(b, bill, Bill(b.cycles[c].outstanding, 0, false, stamp, stamp));
      }
    }
  }

  /** A requested invoice is linked to a cycle exactly when the cycle was still open; on a cycle already
      invoiced it is loose. How long the link is of use, SettlementInvoices says. */
  lemma RequestedInvoiceIsLinkedIff(b: Books, c: Id, bill: Id, stamp: int, later: int)
    requires Inv(b) && c in b.cycles && (b.cycles[c].status == Open || b.cycles[c].status == Invoiced)
    requires b.cycles[c].outstanding >= MIN_SETTLEMENT && bill !in b.bills
    ensures var b' := RequestSettlement(b, c, bill, stamp, later);
      && bill in b'.bills && b'.bills[bill].price == b.cycles[c].outstanding
      && ((exists d :: BilledBy(b'.cycles, d, bill)) <==> b.cycles[c].status == Open)
  {
    forall d
      ensures !BilledBy(b.cycles, d, bill)
    {
      assert BillOk(b, d);
    }
    if b.cycles[c].status == Open {
      assert BilledBy(RequestSettlement(b, c, bill, stamp, later).cycles, c, bill);
    }
  }

  lemma OverdueKeeps(b: Books, c: Id, now: int)
    requires Inv(b)
    ensures Inv(Overdue(b, c, now))
  {
    if Overdue(b, c, now) != b {
      var m := b.cycles[c].merchant;
      if b.cycles[c].outstanding < MIN_SETTLEMENT {
        SetStatusKeeps(b, c, CarriedOver);
        SetStandingKeeps(SetStatus(b, c, CarriedOver), m, Active);
      } else {
        SetStatusKeeps(b, c, PastDue);
        assert LateCycleOf(SetStatus(b, c, PastDue), m, c);
        SetStandingKeeps(SetStatus(b, c, PastDue), m, Late);
      }
    }
  }

  lemma SuspendKeeps(b: Books, c: Id, now: int)
    requires Inv(b)
    ensures Inv(Suspend(b, c, now))
  {
    if Suspend(b, c, now) != b {
      var m := b.cycles[c].merchant;
      SetStatusKeeps(b, c, Suspended);
      assert LateCycleOf(SetStatus(b, c, Suspended), m, c);
      SetStandingKeeps(SetStatus(b, c, Suspended), m, Blocked);
    }
  }

  lemma BillPaymentKeeps(b: Books, bill: Id, received: int, confirmed: bool)
    requires Inv(b)
    ensures Inv(BillPayment(b, bill, received, confirmed))
  {
    if bill in b.bills {
      AddBillKeeps(b, bill, b.bills[bill].(received := received, confirmed := confirmed));
    }
  }

  lemma RetierKeeps(b: Books, m: Id, tier: Tier)
    requires Inv(b)
    ensures Inv(Retier(b, m, tier))
  {
    if m in b.merchants {
      MerchantsKeep(b, Retier(b, m, tier).merchants);
    }
  }
}
