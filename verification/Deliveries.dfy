/** Matching a swap's reported Zcash transactions with the payments the scanner saw. */
module Deliveries {
  import opened Sums
  import opened Text

  predicate Admissible(hash: string) { 0 < ByteLen(hash) <= 128 }

  /** Shaped like a Zcash transaction id; other chains' hashes may be listed too. */
  predicate IsZcash(hash: string) { ByteLen(hash) == 64 && forall c <- hash :: IsHex(c) }

  /** The reported hashes are readable: between 1 and 16 entries, none missing, empty or oversized. */
  predicate Readable(entries: seq<Option<string>>) {
    0 < |entries| <= 16 && forall e <- entries :: e.Some? && Admissible(e.value)
  }

  /** The Zcash transactions named, whatever their case, order or repetition. */
  function Named(entries: seq<Option<string>>): set<string> {
    set e | e in entries && e.Some? && IsZcash(e.value) :: ToLower(e.value)
  }

  /** None when the provider's list is unusable. */
  method ZcashDeliveries(entries: Option<seq<Option<string>>>) returns (hashes: Option<seq<string>>)
    ensures hashes.Some? <==> entries.Some? && Readable(entries.value) && Named(entries.value) != {}
    ensures hashes.Some? ==>
      && (forall j, k :: 0 <= j < k < |hashes.value| ==> hashes.value[j] != hashes.value[k])
      && (forall h :: h in hashes.value <==> h in Named(entries.value))
  {
    if entries.None? || |entries.value| == 0 || |entries.value| > 16 {
      return None;
    }
    var found: seq<string> := [];
    for k := 0 to |entries.value|
      invariant forall e <- entries.value[..k] :: e.Some? && Admissible(e.value)
      invariant forall i, j :: 0 <= i < j < |found| ==> found[i] != found[j]
      invariant forall h :: h in found <==> h in Named(entries.value[..k])
    {
      var e := entries.value[k];
      assert entries.value[..k + 1] == entries.value[..k] + [e];
      if e.None? || !Admissible(e.value) {
        assert e in entries.value;
        return None;
      }
      assert Named(entries.value[..k + 1]) == Named(entries.value[..k]) + Named([e]);
      if IsZcash(e.value) {
        assert Named([e]) == {ToLower(e.value)} by {
          assert e in [e];
        }
        var hash := ToLower(e.value);
        if hash !in found {
          found := found + [hash];
        }
      } else {
        assert Named([e]) == {};
      }
    }
    assert entries.value[..|entries.value|] == entries.value;
    if found == [] {
      assert forall h :: h !in Named(entries.value);
      return None;
    }
    assert found[0] in Named(entries.value);
    return Some(found);
  }

  // ---- the scanner's rows --------------------------------------------------------------------

  /** The payment rows of an invoice whose transaction, lower-cased, is one of `hashes`. */
  function Rows(payments: map<(Id, string), nat>, id: Id, hashes: set<string>): map<(Id, string), int> {
    map k | k in payments && k.0 == id && ToLower(k.1) in hashes :: payments[k]
  }

  ghost function Units(payments: map<(Id, string), nat>, id: Id, hash: string): int {
    Total(Rows(payments, id, {hash}))
  }

  /** Of the named transactions, those that count: confirmed by the explorer. */
  function Confirmed(explorer: map<string, bool>, hashes: set<string>): set<string> {
    set h | h in hashes && h in explorer && explorer[h]
  }

  /** The explorer answers about every named transaction that paid something. */
  ghost predicate Answered(payments: map<(Id, string), nat>, id: Id, explorer: map<string, bool>, hashes: set<string>) {
    forall h :: h in hashes && Units(payments, id, h) > 0 ==> h in explorer
  }

  lemma RowsAdd(payments: map<(Id, string), nat>, id: Id, hashes: set<string>, h: string)
    requires h !in hashes
    ensures Total(Rows(payments, id, hashes + {h})) == Total(Rows(payments, id, hashes)) + Units(payments, id, h)
    ensures 0 <= Units(payments, id, h) && 0 <= Total(Rows(payments, id, hashes))
  {
    TotalSplit(Rows(payments, id, hashes + {h}), Rows(payments, id, hashes), Rows(payments, id, {h}));
    TotalNonNegative(Rows(payments, id, {h}));
    TotalNonNegative(Rows(payments, id, hashes));
  }

  function SetOf(hashes: seq<string>): set<string> {
    set h | h in hashes
  }

  /** Every row of the invoice with a named and confirmed transaction counts exactly once. Fails if
      the explorer does not answer where it is asked, or if the sum overflows 64 bits. */
  method MatchedDelivery(payments: map<(Id, string), nat>, id: Id, explorer: map<string, bool>, hashes: seq<string>)
    returns (delivered: Option<int>)
    requires forall j, k :: 0 <= j < k < |hashes| ==> hashes[j] != hashes[k]
    ensures var sum := Total(Rows(payments, id, Confirmed(explorer, SetOf(hashes))));
      delivered == if Answered(payments, id, explorer, SetOf(hashes)) && sum <= I64_MAX then Some(sum) else None
  {
    var sum := 0;
    assert Rows(payments, id, {}) == map[] && Confirmed(explorer, SetOf([])) == {};
    for k := 0 to |hashes|
      invariant sum == Total(Rows(payments, id, Confirmed(explorer, SetOf(hashes[..k])))) <= I64_MAX
      invariant Answered(payments, id, explorer, SetOf(hashes[..k]))
    {
      var h := hashes[k];
      var before := SetOf(hashes[..k]);
      assert h !in before && hashes[..k + 1] == hashes[..k] + [h];
      assert SetOf(hashes[..k + 1]) == before + {h};
      var units := SumRows(Rows(payments, id, {h}));
      RowsAdd(payments, id, Confirmed(explorer, before), h);
      if units > 0 {
        if h !in explorer {
          assert h in SetOf(hashes);
          return None;
        }
        if explorer[h] {
          assert Confirmed(explorer, before + {h}) == Confirmed(explorer, before) + {h};
          if sum + units > I64_MAX {
            MoreHashesMore(payments, id, explorer, hashes, k + 1);
            return None;
          }
          sum := sum + units;
        } else {
          assert Confirmed(explorer, before + {h}) == Confirmed(explorer, before);
        }
      } else if h in explorer && explorer[h] {
        assert Confirmed(explorer, before + {h}) == Confirmed(explorer, before) + {h};
      } else {
        assert Confirmed(explorer, before + {h}) == Confirmed(explorer, before);
      }
    }
    assert hashes[..|hashes|] == hashes;
    return Some(sum);
  }

  lemma MoreHashesMore(payments: map<(Id, string), nat>, id: Id, explorer: map<string, bool>, hashes: seq<string>, k: nat)
    requires k <= |hashes|
    ensures Total(Rows(payments, id, Confirmed(explorer, SetOf(hashes[..k]))))
         <= Total(Rows(payments, id, Confirmed(explorer, SetOf(hashes))))
  {
    TotalMonotone(Rows(payments, id, Confirmed(explorer, SetOf(hashes[..k]))), Rows(payments, id, Confirmed(explorer, SetOf(hashes))));
  }

  // ---- the answer does not depend on how the list is written --------------------------------

  lemma {:induction false} LowerKeepsShape(s: string)
    ensures ByteLen(ToLower(s)) == ByteLen(s)
    ensures (forall c <- ToLower(s) :: IsHex(c)) <==> (forall c <- s :: IsHex(c))
  {
    if s != [] {
      LowerKeepsShape(s[1..]);
      assert s == [s[0]] + s[1..] && ToLower(s) == [Lower(s[0])] + ToLower(s[1..]);
      assert IsHex(Lower(s[0])) <==> IsHex(s[0]);
      assert ToLower(s)[0] in ToLower(s);
    }
  }

  ghost predicate Covers(a: seq<Option<string>>, b: seq<Option<string>>) {
    forall e :: e in a && e.Some? ==> exists f :: f in b && f.Some? && ToLower(f.value) == ToLower(e.value)
  }

  lemma CoversNames(a: seq<Option<string>>, b: seq<Option<string>>)
    requires Covers(a, b)
    ensures Named(a) <= Named(b)
  {
    forall h | h in Named(a)
      ensures h in Named(b)
    {
      var e :| e in a && e.Some? && IsZcash(e.value) && ToLower(e.value) == h;
      var f :| f in b && f.Some? && ToLower(f.value) == ToLower(e.value);
      LowerKeepsShape(e.value);
      LowerKeepsShape(f.value);
    }
  }

  lemma SameNames(a: seq<Option<string>>, b: seq<Option<string>>)
    requires Covers(a, b) && Covers(b, a)
    ensures Named(a) == Named(b)
  {
    CoversNames(a, b);
    CoversNames(b, a);
  }

  /** A list covered by a readable one is itself readable exactly when it is not too long, not empty and
      has no entry missing: recasing changes no length. */
  lemma CoveredIsReadable(a: seq<Option<string>>, b: seq<Option<string>>)
    requires Readable(a) && Covers(b, a)
    ensures Readable(b) <==> 0 < |b| <= 16 && None !in b
  {
    forall e | e in b && e.Some?
      ensures Admissible(e.value)
    {
      var f :| f in a && f.Some? && ToLower(f.value) == ToLower(e.value);
      LowerKeepsShape(e.value);
      LowerKeepsShape(f.value);
    }
  }

  // ---- from the reported list to what was delivered --------------------------------------------

  datatype Outcome = Unusable | Failed | Delivered(units: int)

  ghost function OutcomeFor(payments: map<(Id, string), nat>, id: Id, explorer: map<string, bool>, readable: bool, names: set<string>): Outcome {
    var sum := Total(Rows(payments, id, Confirmed(explorer, names)));
    if !readable || names == {} then Unusable
    else if Answered(payments, id, explorer, names) && sum <= I64_MAX then Delivered(sum)
    else Failed
  }

  ghost function OutcomeOf(payments: map<(Id, string), nat>, id: Id, explorer: map<string, bool>, entries: seq<Option<string>>): Outcome {
    OutcomeFor(payments, id, explorer, Readable(entries), Named(entries))
  }

  lemma NamesDecide(payments: map<(Id, string), nat>, id: Id, explorer: map<string, bool>, r: bool, r': bool, names: set<string>)
    ensures OutcomeFor(payments, id, explorer, r, names) == OutcomeFor(payments, id, explorer, r', names) <==> r == r' || names == {}
  {
  }

  method Deliver(payments: map<(Id, string), nat>, id: Id, explorer: map<string, bool>, entries: seq<Option<string>>)
    returns (outcome: Outcome)
    ensures outcome == OutcomeOf(payments, id, explorer, entries)
  {
    var hashes := ZcashDeliveries(Some(entries));
    if hashes.None? {
      return Unusable;
    }
    assert SetOf(hashes.value) == Named(entries);
    var units := MatchedDelivery(payments, id, explorer, hashes.value);
    return if units.Some? then Delivered(units.value) else Failed;
  }

  /** Repeating, reordering or recasing the reported entries changes neither the units nor either failure,
      unless it makes the one list readable and the other not; CoveredIsReadable says when. */
  lemma ReportingStyleIsIrrelevant(payments: map<(Id, string), nat>, id: Id, explorer: map<string, bool>,
                                   a: seq<Option<string>>, b: seq<Option<string>>)
    requires Covers(a, b) && Covers(b, a)
    ensures Named(a) == Named(b)
    ensures OutcomeOf(payments, id, explorer, a) == OutcomeOf(payments, id, explorer, b) <==>
            (Readable(a) <==> Readable(b)) || Named(a) == {}
  {
    SameNames(a, b);
    NamesDecide(payments, id, explorer, Readable(a), Readable(b), Named(a));
  }
}
