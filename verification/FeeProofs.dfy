/** Proofs of fee collection: credit events read from public transactions, reduced to distinct
    ones, and recorded so that each belongs to one invoice for ever. */
module FeeProofs {
  import opened Sums
  import opened Text

  datatype Credit = Credit(proof: string, units: nat)

  function Sum(credits: seq<Credit>): nat {
    if credits == [] then 0 else credits[0].units + Sum(credits[1..])
  }

  predicate Proves(credits: seq<Credit>, p: string) {
    exists k :: 0 <= k < |credits| && credits[k].proof == p
  }

  predicate Distinct(credits: seq<Credit>) {
    forall j, k :: 0 <= j < k < |credits| ==> credits[j].proof != credits[k].proof
  }

  // ---- sort, then drop repeated neighbours ---------------------------------------------------

  predicate Sorted(credits: seq<Credit>) {
    forall j, k :: 0 <= j < k < |credits| ==> Leq(credits[j].proof, credits[k].proof)
  }

  function Insert(c: Credit, credits: seq<Credit>): seq<Credit> {
    if credits == [] || Leq(c.proof, credits[0].proof) then [c] + credits
    else [credits[0]] + Insert(c, credits[1..])
  }

  /** The stable sort by proof id. */
  function Sort(credits: seq<Credit>): seq<Credit> {
    if credits == [] then [] else Insert(credits[0], Sort(credits[1..]))
  }

  lemma {:induction false} InsertKeeps(c: Credit, credits: seq<Credit>)
    ensures multiset(Insert(c, credits)) == multiset(credits) + multiset{c}
  {
    if credits != [] && !Leq(c.proof, credits[0].proof) {
      InsertKeeps(c, credits[1..]);
      assert credits == [credits[0]] + credits[1..];
    }
  }

  lemma SortedCons(c: Credit, credits: seq<Credit>)
    requires Sorted(credits) && forall d :: d in credits ==> Leq(c.proof, d.proof)
    ensures Sorted([c] + credits)
  {
    var all := [c] + credits;
    forall j, k | 0 <= j < k < |all|
      ensures Leq(all[j].proof, all[k].proof)
    {
      assert all[k] == credits[k - 1];
      if j > 0 {
        assert all[j] == credits[j - 1];
      }
    }
  }

  lemma {:induction false} InsertSorts(c: Credit, credits: seq<Credit>)
    requires Sorted(credits)
    ensures Sorted(Insert(c, credits))
  {
    if credits == [] {
    } else if Leq(c.proof, credits[0].proof) {
      forall d | d in credits
        ensures Leq(c.proof, d.proof)
      {
        LeqTotal(credits[0].proof, credits[0].proof);
        LeqTransitive(c.proof, credits[0].proof, d.proof);
      }
      SortedCons(c, credits);
    } else {
      LeqTotal(c.proof, credits[0].proof);
      InsertSorts(c, credits[1..]);
      InsertKeeps(c, credits[1..]);
      forall d | d in Insert(c, credits[1..])
        ensures Leq(credits[0].proof, d.proof)
      {
        assert d in multiset(Insert(c, credits[1..]));
      }
      SortedCons(credits[0], Insert(c, credits[1..]));
    }
  }

  lemma {:induction false} SortSorts(credits: seq<Credit>)
    ensures Sorted(Sort(credits)) && multiset(Sort(credits)) == multiset(credits)
  {
    if credits != [] {
      SortSorts(credits[1..]);
      InsertSorts(credits[0], Sort(credits[1..]));
      InsertKeeps(credits[0], Sort(credits[1..]));
      assert credits == [credits[0]] + credits[1..];
    }
  }

  /** Keeps the first of each run of equal proof ids, in place order. */
  method Dedup(credits: seq<Credit>) returns (kept: seq<Credit>)
    requires Sorted(credits)
    ensures Sorted(kept) && Distinct(kept)
    ensures forall c :: c in kept ==> c in credits
    ensures forall p :: Proves(credits, p) ==> Proves(kept, p)
  {
    kept := [];
    for i := 0 to |credits|
      invariant Sorted(kept) && Distinct(kept)
      invariant forall c :: c in kept ==> c in credits[..i]
      invariant forall k :: 0 <= k < i ==> Proves(kept, credits[k].proof)
      invariant i > 0 ==> kept != [] && kept[|kept| - 1].proof == credits[i - 1].proof
      invariant forall j, k :: 0 <= j < |kept| && i <= k < |credits| ==> Leq(kept[j].proof, credits[k].proof)
    {
      if kept == [] || kept[|kept| - 1].proof != credits[i].proof {
        forall j | 0 <= j < |kept|
          ensures kept[j].proof != credits[i].proof
        {
          if kept[j].proof == credits[i].proof {
            LeqTotal(kept[|kept| - 1].proof, credits[i].proof);
          }
        }
        ghost var before := kept;
        kept := kept + [credits[i]];
        assert kept[|before|].proof == credits[i].proof;
        forall p | Proves(before, p)
          ensures Proves(kept, p)
        {
          var k :| 0 <= k < |before| && before[k].proof == p;
          assert kept[k].proof == p;
        }
      }
    }
  }

  /** What reconciliation records: sorted, repeats dropped, nothing lost or invented. */
  method Distil(all: seq<Credit>) returns (credits: seq<Credit>)
    ensures Distinct(credits)
    ensures forall c :: c in credits ==> c in all
    ensures forall p :: Proves(all, p) <==> Proves(credits, p)
  {
    var sorted := Sort(all);
    SortSorts(all);
    credits := Dedup(sorted);
    assert forall c :: c in credits ==> c in multiset(sorted);
    forall p
      ensures Proves(all, p) <==> Proves(credits, p)
    {
      if k :| 0 <= k < |all| && all[k].proof == p {
        assert all[k] in multiset(sorted);
        var j :| 0 <= j < |sorted| && sorted[j] == all[k];
        assert Proves(sorted, p);
      }
      if k :| 0 <= k < |credits| && credits[k].proof == p {
        assert credits[k] in multiset(all);
        var j :| 0 <= j < |all| && all[j] == credits[k];
      }
    }
  }

  /** Proof ids are stored as blind indexes: keyed hashes, taken to be injective. */
  function Blinded(credits: seq<Credit>, blind: string -> string): seq<Credit> {
    seq(|credits|, k requires 0 <= k < |credits| => Credit(blind(credits[k].proof), credits[k].units))
  }

  lemma BlindedStaysDistinct(credits: seq<Credit>, blind: string -> string)
    requires Distinct(credits) && forall p, q :: blind(p) == blind(q) ==> p == q
    ensures Distinct(Blinded(credits, blind)) && Sum(Blinded(credits, blind)) == Sum(credits)
    decreases |credits|
  {
    if credits != [] {
      BlindedStaysDistinct(credits[1..], blind);
      assert Blinded(credits, blind)[1..] == Blinded(credits[1..], blind);
    }
  }

  // ---- the evidence table --------------------------------------------------------------------

  /** `received` holds the fee rows marked collected, with the amount they recorded. */
  datatype Evidence = Evidence(rows: set<Id>, owners: map<string, Id>, received: map<Id, int>)

  /** Recording succeeds when there is something to record, the amount fits, and no proof belongs elsewhere. */
  predicate Accepts(e: Evidence, id: Id, credits: seq<Credit>) {
    && credits != [] && Sum(credits) <= U128_MAX && id in e.rows
    && forall k :: 0 <= k < |credits| && credits[k].proof in e.owners ==> e.owners[credits[k].proof] == id
  }

  function ClaimAll(owners: map<string, Id>, id: Id, credits: seq<Credit>): map<string, Id> {
    if credits == [] then owners
    else
      var o := ClaimAll(owners, id, credits[..|credits| - 1]);
      var p := credits[|credits| - 1].proof;
      if p in o then o else o[p := id]
  }

  function Recorded(e: Evidence, id: Id, credits: seq<Credit>): Evidence {
    if !Accepts(e, id, credits) then e
    else Evidence(e.rows, ClaimAll(e.owners, id, credits),
                  if id in e.received then e.received else e.received[id := Sum(credits)])
  }

  class Book {
    var rows: set<Id>
    var owners: map<string, Id>
    var received: map<Id, int>

    ghost function Value(): Evidence
      reads this
    {
      Evidence(rows, owners, received)
    }

    /** `try_fold` with `checked_add`: the sum, unless it overflows 128 bits. */
    method AddUp(credits: seq<Credit>) returns (amount: Option<nat>)
      ensures amount == if Sum(credits) <= U128_MAX then Some(Sum(credits)) else None
    {
      var sum := 0;
      for k := 0 to |credits|
        invariant sum == Sum(credits[..k]) <= U128_MAX
      {
        SumAppend(credits[..k], credits[k]);
        assert credits[..k] + [credits[k]] == credits[..k + 1];
        SumPrefix(credits, k + 1);
        sum := sum + credits[k].units;
        if sum > U128_MAX {
          return None;
        }
      }
      assert credits[..|credits|] == credits;
      return Some(sum);
    }

    /** One transaction: any proof owned by another invoice rolls everything back. */
    method Record(id: Id, credits: seq<Credit>) returns (ok: bool)
      modifies this`owners, this`received
      ensures ok == Accepts(old(Value()), id, credits) && Value() == Recorded(old(Value()), id, credits)
    {
      var amount := AddUp(credits);
      if credits == [] || amount.None? || id !in rows {
        return false;
      }
      var claimed := owners;
      for k := 0 to |credits|
        invariant Value() == old(Value()) && claimed == ClaimAll(owners, id, credits[..k])
        invariant forall j :: 0 <= j < k && credits[j].proof in owners ==> owners[credits[j].proof] == id
      {
        assert credits[..k + 1][..k] == credits[..k];
        ClaimValues(owners, id, credits[..k]);
        var p := credits[k].proof;
        if p !in claimed {
          claimed := claimed[p := id];
        }
        if claimed[p] != id {
          assert credits[k].proof in owners && owners[credits[k].proof] != id;
          return false;
        }
      }
      assert credits[..|credits|] == credits;
      owners := claimed;
      if id !in received {
        received := received[id := amount.value];
      }
      return true;
    }
  }

  lemma {:induction false} ClaimValues(owners: map<string, Id>, id: Id, credits: seq<Credit>)
    ensures forall p :: p in owners ==> p in ClaimAll(owners, id, credits)
    ensures forall p :: p in ClaimAll(owners, id, credits) ==>
      && ClaimAll(owners, id, credits)[p] == (if p in owners then owners[p] else id)
      && (p in owners || Proves(credits, p))
  {
    if credits != [] {
      var front, last := credits[..|credits| - 1], credits[|credits| - 1];
      ClaimValues(owners, id, front);
      forall p | Proves(front, p)
        ensures Proves(credits, p)
      {
        var k :| 0 <= k < |front| && front[k].proof == p;
        assert credits[k].proof == p;
      }
      assert credits[|credits| - 1].proof == last.proof;
    }
  }

  lemma {:induction false} SumAppend(credits: seq<Credit>, c: Credit)
    ensures Sum(credits + [c]) == Sum(credits) + c.units
  {
    if credits != [] {
      assert (credits + [c])[1..] == credits[1..] + [c];
      SumAppend(credits[1..], c);
    }
  }

  lemma {:induction false} SumPrefix(credits: seq<Credit>, k: nat)
    requires k <= |credits|
    ensures Sum(credits[..k]) <= Sum(credits)
  {
    if k > 0 {
      assert credits[..k][1..] == credits[1..][..k - 1];
      SumPrefix(credits[1..], k - 1);
    }
  }

  // ---- ownership and conservation ------------------------------------------------------------

  function UnitsOf(owners: map<string, Id>, units: map<string, nat>): map<string, int>
    requires owners.Keys <= units.Keys
  {
    map p | p in owners :: units[p]
  }

  /** `units` is what each proof is worth on its chain, the same whenever it is read. */
  predicate Genuine(credits: seq<Credit>, units: map<string, nat>) {
    Distinct(credits) && forall k :: 0 <= k < |credits| ==> credits[k].proof in units && units[credits[k].proof] == credits[k].units
  }

  ghost predicate Backed(e: Evidence, units: map<string, nat>) {
    && e.owners.Keys <= units.Keys
    && (forall p :: p in e.owners ==> e.owners[p] in e.received)
    && Total(e.received) <= Total(UnitsOf(e.owners, units))
  }

  lemma ClaimOne(owners: map<string, Id>, id: Id, p: string, units: map<string, nat>)
    requires owners.Keys <= units.Keys && p in units && p !in owners
    ensures Total(UnitsOf(owners[p := id], units)) == Total(UnitsOf(owners, units)) + units[p]
  {
    assert UnitsOf(owners[p := id], units) == UnitsOf(owners, units)[p := units[p]];
    TotalWrite(UnitsOf(owners, units), p, units[p]);
  }

  lemma {:induction false} ClaimTotals(owners: map<string, Id>, id: Id, credits: seq<Credit>, units: map<string, nat>)
    requires Genuine(credits, units) && owners.Keys <= units.Keys
    ensures ClaimAll(owners, id, credits).Keys <= units.Keys
    ensures Total(UnitsOf(owners, units)) <= Total(UnitsOf(ClaimAll(owners, id, credits), units))
    ensures (forall k :: 0 <= k < |credits| ==> credits[k].proof !in owners) ==>
      Total(UnitsOf(ClaimAll(owners, id, credits), units)) == Total(UnitsOf(owners, units)) + Sum(credits)
  {
    if credits != [] {
      var front, last := credits[..|credits| - 1], credits[|credits| - 1];
      ClaimTotals(owners, id, front, units);
      ClaimValues(owners, id, front);
      var o := ClaimAll(owners, id, front);
      assert credits == front + [last];
      SumAppend(front, last);
      assert !Proves(front, last.proof);
      if last.proof !in o {
        ClaimOne(o, id, last.proof, units);
      }
    }
  }

  /** Whatever is recorded, in any order and however often: a proof keeps its owner for ever, and
      the amounts recorded for all invoices never exceed what the distinct proofs are worth. */
  lemma RecordedStaysBacked(e: Evidence, id: Id, credits: seq<Credit>, units: map<string, nat>)
    requires Backed(e, units) && Genuine(credits, units)
    ensures Backed(Recorded(e, id, credits), units)
    ensures forall p :: p in e.owners ==> p in Recorded(e, id, credits).owners && Recorded(e, id, credits).owners[p] == e.owners[p]
    ensures forall i :: i in e.received ==> i in Recorded(e, id, credits).received && Recorded(e, id, credits).received[i] == e.received[i]
  {
    if Accepts(e, id, credits) {
      ClaimTotals(e.owners, id, credits, units);
      ClaimValues(e.owners, id, credits);
      if id !in e.received {
        TotalWrite(e.received, id, Sum(credits));
      }
    }
  }

  datatype Attempt = Attempt(id: Id, credits: seq<Credit>)

  function RecordAll(e: Evidence, attempts: seq<Attempt>): Evidence {
    if attempts == [] then e
    else Recorded(RecordAll(e, attempts[..|attempts| - 1]), attempts[|attempts| - 1].id, attempts[|attempts| - 1].credits)
  }

  lemma {:induction false} EvidenceIsSound(e: Evidence, attempts: seq<Attempt>, units: map<string, nat>)
    requires e.owners == map[] && e.received == map[]
    requires forall a <- attempts :: Genuine(a.credits, units)
    ensures Backed(RecordAll(e, attempts), units)
    ensures forall n: nat :: n <= |attempts| ==>
      RecordAll(e, attempts[..n]).owners.Items <= RecordAll(e, attempts).owners.Items
  {
    if attempts != [] {
      var front, last := attempts[..|attempts| - 1], attempts[|attempts| - 1];
      EvidenceIsSound(e, front, units);
      assert last in attempts;
      RecordedStaysBacked(RecordAll(e, front), last.id, last.credits, units);
      forall n: nat | n <= |attempts|
        ensures RecordAll(e, attempts[..n]).owners.Items <= RecordAll(e, attempts).owners.Items
      {
        if n == |attempts| {
          assert attempts[..n] == attempts;
        } else {
          assert attempts[..n] == front[..n];
        }
      }
    }
  }
}
