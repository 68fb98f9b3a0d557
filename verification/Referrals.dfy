/** Referral earnings: half of every collected fee of a confirmed, referred invoice, in the asset
    received, minted once per receipt however often reconciliation runs. */
module Referrals {
  import opened Sums
  import opened Text

  const BATCH := 100

  /** A collected fee: of a swap, or one transaction of a direct payment. */
  datatype Receipt = Swap(invoice: string) | Direct(invoice: string, txid: string)
  datatype Fee = Fee(asset: string, units: nat)
  datatype Invoice = Invoice(merchant: string, confirmed: bool)
  datatype Earning = Earning(invoice: string, referrer: string, asset: string, collected: nat, reward: nat)

  /** The text under which a receipt's earning is stored. */
  function Key(r: Receipt): string {
    match r
    case Swap(i) => "swap:" + i
    case Direct(i, t) => "zec:" + (i + ":" + t)
  }

  predicate Named(r: Receipt) { NoColon(r.invoice) }

  /** Without colons in invoice ids, no two receipts share a key. */
  lemma KeysAreDistinct(a: Receipt, b: Receipt)
    requires Named(a) && Named(b) && Key(a) == Key(b)
    ensures a == b
  {
    assert (Key(a)[0] == 's' <==> a.Swap?) && (Key(b)[0] == 's' <==> b.Swap?);
    if a.Swap? && b.Swap? {
      assert Key(a)[5..] == a.invoice && Key(b)[5..] == b.invoice;
    } else if a.Direct? && b.Direct? {
      assert Key(a)[4..] == a.invoice + ":" + a.txid && Key(b)[4..] == b.invoice + ":" + b.txid;
      ColonSplits(a.invoice, b.invoice, a.txid, b.txid);
    }
  }

  /** With them, two could. */
  lemma ColonsCollide()
    ensures Direct("a", "b:c") != Direct("a:b", "c") && Key(Direct("a", "b:c")) == Key(Direct("a:b", "c"))
  {
    assert "a" + ":" + "b:c" == "a:b" + ":" + "c";
  }

  /** The tables: collected fees of either kind (append-only), invoices, the referrer each
      invoice's policy recorded, and the earnings. */
  datatype Tables = Tables(
    receipts: map<Receipt, Fee>,
    invoices: map<string, Invoice>,
    policies: map<string, Option<string>>,
    earnings: map<string, Earning>)

  predicate Referred(t: Tables, i: string) {
    i in t.invoices && t.invoices[i].confirmed && i in t.policies && t.policies[i].Some?
  }

  /** What receipt `r` earns: half, rounded down in the smallest unit. */
  function Reward(t: Tables, r: Receipt): Earning
    requires r in t.receipts && Referred(t, r.invoice)
  {
    Earning(r.invoice, t.policies[r.invoice].value, t.receipts[r].asset, t.receipts[r].units, t.receipts[r].units / 2)
  }

  /** The declarative join: receipts that should have an earning. */
  function Due(t: Tables): set<Receipt> {
    set r | r in t.receipts && Referred(t, r.invoice)
  }

  function Pending(t: Tables, swaps: bool): set<Receipt> {
    set r | r in Due(t) && r.Swap? == swaps && Key(r) !in t.earnings
  }

  ghost predicate Matches(t: Tables, r: Receipt, k: string) {
    && r in t.receipts && Key(r) == k && k in t.earnings
    && t.earnings[k].invoice == r.invoice && t.earnings[k].asset == t.receipts[r].asset
    && t.earnings[k].collected == t.receipts[r].units && t.earnings[k].reward == t.receipts[r].units / 2
  }

  ghost predicate Sound(t: Tables) {
    && (forall r :: r in t.receipts ==> Named(r) && 0 < t.receipts[r].units && (r.Direct? ==> t.receipts[r].asset == "zec"))
    && (forall k :: k in t.earnings ==> exists r :: Matches(t, r, k))
  }

  /** Every due receipt has exactly its earning. */
  ghost predicate Complete(t: Tables) {
    forall r :: r in Due(t) ==> Matches(t, r, Key(r))
  }

  function Accrued(t: Tables, key: string, i: string, asset: string, units: nat): Tables {
    if units > 0 && Referred(t, i) && key !in t.earnings
    then t.(earnings := t.earnings[key := Earning(i, t.policies[i].value, asset, units, units / 2)]) else t
  }

  /** From `t`, earnings only grow, and each new one is exactly what a due receipt earns. */
  ghost predicate Minted(t: Tables, t': Tables) {
    && t' == t.(earnings := t'.earnings)
    && (forall k :: k in t.earnings ==> k in t'.earnings && t'.earnings[k] == t.earnings[k])
    && (forall k :: k in t'.earnings && k !in t.earnings ==> exists r :: r in Due(t) && Key(r) == k && t'.earnings[k] == Reward(t, r))
  }

  lemma AccruedSound(t: Tables, r: Receipt)
    requires Sound(t) && r in t.receipts
    ensures var t' := Accrued(t, Key(r), r.invoice, t.receipts[r].asset, t.receipts[r].units);
      && Sound(t') && Minted(t, t')
      && (Referred(t, r.invoice) ==> Matches(t', r, Key(r)))
      && (forall swaps :: Pending(t', swaps) == Pending(t, swaps) - {r})
  {
    var t' := Accrued(t, Key(r), r.invoice, t.receipts[r].asset, t.receipts[r].units);
    forall q | q in t.receipts && Key(q) == Key(r)
      ensures q == r
    {
      KeysAreDistinct(q, r);
    }
    forall k | k in t'.earnings
      ensures exists q :: Matches(t', q, k)
    {
      if k in t.earnings {
        var q :| Matches(t, q, k);
        assert Matches(t', q, k);
      } else {
        assert Matches(t', r, k);
      }
    }
  }

  class Program {
    var receipts: map<Receipt, Fee>
    var invoices: map<string, Invoice>
    var policies: map<string, Option<string>>
    var earnings: map<string, Earning>

    function Value(): Tables
      reads this
    {
      Tables(receipts, invoices, policies, earnings)
    }

    /** False, changing nothing, for an empty receipt or one already stored with other particulars. */
    method Accrue(key: string, i: string, asset: string, units: nat) returns (ok: bool)
      modifies this`earnings
      ensures Value() == Accrued(old(Value()), key, i, asset, units)
      ensures ok <==> units > 0 && (Referred(old(Value()), i) && key in old(earnings) ==>
        (old(earnings)[key].invoice, old(earnings)[key].asset, old(earnings)[key].collected) == (i, asset, units))
    {
      if units == 0 {
        return false;
      }
      if !Referred(Value(), i) {
        return true;
      }
      if key !in earnings {
        earnings := earnings[key := Earning(i, policies[i].value, asset, units, units / 2)];
      }
      var stored := earnings[key];
      return (stored.invoice, stored.asset, stored.collected) == (i, asset, units);
    }

    /** On sound tables a stored receipt never fails. */
    method AccrueReceipt(r: Receipt) returns (ok: bool)
      requires Sound(Value()) && r in receipts
      modifies this`earnings
      ensures Sound(Value()) && ok && Minted(old(Value()), Value())
      ensures forall swaps :: Pending(Value(), swaps) == Pending(old(Value()), swaps) - {r}
    {
      AccruedSound(Value(), r);
      if Referred(Value(), r.invoice) && Key(r) in earnings {
        StoredMatches(Value(), r);
      }
      ok := Accrue(Key(r), r.invoice, receipts[r].asset, receipts[r].units);
    }

    /** Accrues the given receipts one by one. */
    method AccrueAll(batch: set<Receipt>) returns (ok: bool)
      requires Sound(Value()) && batch <= receipts.Keys
      modifies this`earnings
      ensures Sound(Value()) && ok && Minted(old(Value()), Value())
      ensures forall swaps :: Pending(Value(), swaps) == Pending(old(Value()), swaps) - batch
    {
      ghost var t := Value();
      var rest := batch;
      while rest != {}
        invariant Sound(Value()) && Minted(t, Value()) && rest <= batch <= receipts.Keys
        invariant forall swaps :: Pending(Value(), swaps) == Pending(t, swaps) - (batch - rest)
        decreases |rest|
      {
        var r :| r in rest;
        rest := rest - {r};
        ghost var now := Value();
        ok := AccrueReceipt(r);
        if !ok {
          return;
        }
        MintedTwice(t, now, Value());
        assert batch - rest == (batch - rest - {r}) + {r};
      }
      return true;
    }

    /** `SELECT ... LIMIT 100`: any rows of one kind, as many as there are up to the limit. */
    method Fetch(swaps: bool) returns (batch: set<Receipt>)
      ensures batch <= Pending(Value(), swaps)
      ensures |batch| == if |Pending(Value(), swaps)| < BATCH then |Pending(Value(), swaps)| else BATCH
    {
      batch := {};
      var rest := Pending(Value(), swaps);
      while rest != {} && |batch| < BATCH
        invariant batch !! rest && batch + rest == Pending(Value(), swaps) && |batch| <= BATCH
        decreases |rest|
      {
        var r :| r in rest;
        rest := rest - {r};
        batch := batch + {r};
      }
      assert |Pending(Value(), swaps)| == |batch| + |rest|;
    }

    method ReconcileKind(swaps: bool) returns (ok: bool)
      requires Sound(Value())
      modifies this`earnings
      ensures Sound(Value()) && ok && Minted(old(Value()), Value())
      ensures Pending(Value(), !swaps) == Pending(old(Value()), !swaps)
      ensures Pending(Value(), swaps) <= Pending(old(Value()), swaps)
      ensures |Pending(Value(), swaps)| == Less(|Pending(old(Value()), swaps)|)
    {
      ghost var t := Value();
      var batch := Fetch(swaps);
      ok := AccrueAll(batch);
      assert Pending(t, !swaps) - batch == Pending(t, !swaps);
      CardinalOfRest(Pending(t, swaps), batch);
    }

    /** One pass: up to 100 swaps, then up to 100 direct receipts. */
    method Reconcile() returns (ok: bool)
      requires Sound(Value())
      modifies this`earnings
      ensures Sound(Value()) && ok && Minted(old(Value()), Value())
      ensures |Pending(Value(), true)| == Less(|Pending(old(Value()), true)|)
      ensures |Pending(Value(), false)| == Less(|Pending(old(Value()), false)|)
    {
      ghost var t := Value();
      ok := ReconcileKind(true);
      ghost var t1 := Value();
      ok := ReconcileKind(false);
      MintedTwice(t, t1, Value());
    }

    /** Repeating passes until nothing is pending reaches exactly the declarative join. */
    method Drain()
      requires Sound(Value())
      modifies this`earnings
      ensures Sound(Value()) && Minted(old(Value()), Value()) && Complete(Value())
    {
      ghost var t := Value();
      while Pending(Value(), true) != {} || Pending(Value(), false) != {}
        invariant Sound(Value()) && Minted(t, Value())
        decreases |Pending(Value(), true)| + |Pending(Value(), false)|
      {
        ghost var now := Value();
        var ok := Reconcile();
        assert |Pending(now, true)| + |Pending(now, false)| > 0;
        MintedTwice(t, now, Value());
      }
      NothingPending(Value());
    }

    /** A referrer's balance per asset; fails when one overflows 128 bits. */
    method Summary(referrer: string) returns (balances: Option<map<string, int>>)
      ensures balances.Some? ==> forall asset :: At(balances.value, asset) == Total(RewardsOf(earnings, referrer, asset)) <= U128_MAX
      ensures balances.None? ==> exists asset :: Total(RewardsOf(earnings, referrer, asset)) > U128_MAX
    {
      var totals: map<string, int> := map[];
      var rest := map k | k in earnings && earnings[k].referrer == referrer :: earnings[k];
      NothingAdded(earnings, rest, referrer);
      while rest != map[]
        invariant forall k :: k in rest ==> rest[k].referrer == referrer
        invariant AllAdded(totals, rest, earnings, referrer)
        invariant forall asset :: asset in totals ==> totals[asset] <= U128_MAX
        decreases |rest|
      {
        var k :| k in rest;
        var e := rest[k];
        OneAdded(totals, rest, earnings, referrer, k);
        var sum := (if e.asset in totals then totals[e.asset] else 0) + e.reward;
        if sum > U128_MAX {
          assert Total(RewardsOf(earnings, referrer, e.asset)) > U128_MAX;
          return None;
        }
        totals := totals[e.asset := sum];
        rest := rest - {k};
      }
      EverythingAdded(totals, earnings, referrer);
      return Some(totals);
    }

    /** Before a merchant is deleted, every receipt of its confirmed invoices is accrued. */
    method BeforeDelete(merchant: string) returns (ok: bool)
      requires Sound(Value())
      modifies this`earnings
      ensures Sound(Value()) && ok && Minted(old(Value()), Value())
      ensures forall r :: r in Due(Value()) && invoices[r.invoice].merchant == merchant ==> Matches(Value(), r, Key(r))
    {
      var all := set r | r in receipts && r.invoice in invoices && invoices[r.invoice].merchant == merchant && invoices[r.invoice].confirmed;
      ok := AccrueAll(all);
      forall r | r in Due(Value()) && invoices[r.invoice].merchant == merchant
        ensures Matches(Value(), r, Key(r))
      {
        assert r in all;
        assert r !in Pending(Value(), r.Swap?);
        StoredMatches(Value(), r);
      }
    }
  }

  function Less(n: nat): nat { if n < BATCH then 0 else n - BATCH }

  lemma CardinalOfRest<T>(all: set<T>, part: set<T>)
    requires part <= all
    ensures |all - part| == |all| - |part|
  {
    assert all == (all - part) + part;
  }

  lemma MintedTwice(t: Tables, t': Tables, t'': Tables)
    requires Minted(t, t') && Minted(t', t'')
    ensures Minted(t, t'')
  {
    assert Due(t') == Due(t);
    assert forall r :: r in Due(t) ==> Reward(t', r) == Reward(t, r);
  }

  lemma StoredMatches(t: Tables, r: Receipt)
    requires Sound(t) && r in t.receipts && Key(r) in t.earnings
    ensures Matches(t, r, Key(r))
  {
    var q :| Matches(t, q, Key(r));
    KeysAreDistinct(q, r);
  }

  lemma NothingPending(t: Tables)
    requires Sound(t) && Pending(t, true) == {} && Pending(t, false) == {}
    ensures Complete(t)
  {
    forall r | r in Due(t)
      ensures Matches(t, r, Key(r))
    {
      assert r !in Pending(t, r.Swap?);
      StoredMatches(t, r);
    }
  }

  // ---- solvency -----------------------------------------------------------------------------

  function RewardsOf(earnings: map<string, Earning>, referrer: string, asset: string): map<string, int> {
    map k | k in earnings && earnings[k].referrer == referrer && earnings[k].asset == asset :: earnings[k].reward
  }

  function AllRewards(earnings: map<string, Earning>, asset: string): map<string, int> {
    map k | k in earnings && earnings[k].asset == asset :: earnings[k].reward
  }

  function Collected(receipts: map<Receipt, Fee>, asset: string): map<Receipt, int> {
    map r | r in receipts && receipts[r].asset == asset :: receipts[r].units
  }

  lemma RewardsWithout(earnings: map<string, Earning>, referrer: string, asset: string, k: string)
    requires k in earnings && earnings[k].referrer == referrer
    ensures Total(RewardsOf(earnings, referrer, asset))
         == Total(RewardsOf(earnings - {k}, referrer, asset)) + (if earnings[k].asset == asset then earnings[k].reward else 0)
    ensures 0 <= Total(RewardsOf(earnings - {k}, referrer, asset))
  {
    assert RewardsOf(earnings - {k}, referrer, asset) == RewardsOf(earnings, referrer, asset) - {k};
    if earnings[k].asset == asset {
      TotalRemove(RewardsOf(earnings, referrer, asset), k);
    } else {
      assert RewardsOf(earnings, referrer, asset) - {k} == RewardsOf(earnings, referrer, asset);
    }
    TotalNonNegative(RewardsOf(earnings - {k}, referrer, asset));
  }

  /** What was added up so far and what is still to come make the referrer's total. */
  ghost predicate Added(totals: map<string, int>, rest: map<string, Earning>, all: map<string, Earning>, referrer: string, asset: string) {
    At(totals, asset) + Total(RewardsOf(rest, referrer, asset)) == Total(RewardsOf(all, referrer, asset))
  }

  ghost predicate AllAdded(totals: map<string, int>, rest: map<string, Earning>, all: map<string, Earning>, referrer: string) {
    forall asset :: Added(totals, rest, all, referrer, asset)
  }

  lemma NothingAdded(all: map<string, Earning>, rest: map<string, Earning>, referrer: string)
    requires rest == map k | k in all && all[k].referrer == referrer :: all[k]
    ensures AllAdded(map[], rest, all, referrer)
  {
    forall asset: string ensures Added(map[], rest, all, referrer, asset) {
      assert RewardsOf(rest, referrer, asset) == RewardsOf(all, referrer, asset);
    }
  }

  lemma OneAdded(totals: map<string, int>, rest: map<string, Earning>, all: map<string, Earning>, referrer: string, k: string)
    requires AllAdded(totals, rest, all, referrer) && k in rest && rest[k].referrer == referrer
    ensures At(totals, rest[k].asset) + rest[k].reward <= Total(RewardsOf(all, referrer, rest[k].asset))
    ensures AllAdded(totals[rest[k].asset := At(totals, rest[k].asset) + rest[k].reward], rest - {k}, all, referrer)
  {
    var totals' := totals[rest[k].asset := At(totals, rest[k].asset) + rest[k].reward];
    assert Added(totals, rest, all, referrer, rest[k].asset);
    RewardsWithout(rest, referrer, rest[k].asset, k);
    forall asset: string ensures Added(totals', rest - {k}, all, referrer, asset) {
      assert Added(totals, rest, all, referrer, asset);
      RewardsWithout(rest, referrer, asset, k);
    }
  }

  lemma EverythingAdded(totals: map<string, int>, all: map<string, Earning>, referrer: string)
    requires AllAdded(totals, map[], all, referrer)
    ensures forall asset :: At(totals, asset) == Total(RewardsOf(all, referrer, asset))
  {
    forall asset: string ensures At(totals, asset) == Total(RewardsOf(all, referrer, asset)) {
      assert Added(totals, map[], all, referrer, asset);
      assert RewardsOf(map[], referrer, asset) == map[];
    }
  }

  function KeyOf(): Receipt -> string { (r: Receipt) => Key(r) }

  /** The receipts of an asset that have their earning, with the reward. */
  function Rewarded(t: Tables, asset: string): map<Receipt, int> {
    map r | r in t.receipts && t.receipts[r].asset == asset && Key(r) in t.earnings :: t.earnings[Key(r)].reward
  }

  lemma RewardedTotal(t: Tables, asset: string)
    requires Sound(t)
    ensures Total(AllRewards(t.earnings, asset)) == Total(Rewarded(t, asset))
  {
    var name := KeyOf();
    forall r | r in Rewarded(t, asset)
      ensures Key(r) in AllRewards(t.earnings, asset)
    {
      StoredMatches(t, r);
    }
    forall q, r | q in Rewarded(t, asset) && r in Rewarded(t, asset) && name(q) == name(r)
      ensures q == r
    {
      KeysAreDistinct(q, r);
    }
    forall k | k in AllRewards(t.earnings, asset)
      ensures exists r :: r in Rewarded(t, asset) && name(r) == k
    {
      var r :| Matches(t, r, k);
      assert r in Rewarded(t, asset) && name(r) == k;
    }
    TotalRenamed(Rewarded(t, asset), AllRewards(t.earnings, asset), name);
  }

  /** Asset by asset, all rewards together are at most half of what was really collected. */
  lemma RewardsAreCovered(t: Tables, asset: string)
    requires Sound(t)
    ensures 2 * Total(AllRewards(t.earnings, asset)) <= Total(Collected(t.receipts, asset))
  {
    RewardedTotal(t, asset);
    var once := Rewarded(t, asset);
    var kept := map r | r in once :: t.receipts[r].units - once[r];
    forall r | r in once
      ensures once[r] <= kept[r] && 0 <= once[r]
    {
      StoredMatches(t, r);
    }
    TotalMonotone(once, kept);
    var units := map r | r in once :: t.receipts[r].units;
    TotalDifference(units, once, kept);
    TotalMonotone(units, Collected(t.receipts, asset));
  }
}
