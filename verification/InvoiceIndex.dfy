/** The index that matches a decrypted payment to an invoice, against a scan of the invoice list. */
module InvoiceIndex {
  import opened Sums
  import T = Text

  datatype Invoice = Invoice(id: string, merchant: string, memo: string, address: string, receiver: Option<string>)

  datatype Payment = Payment(merchant: string, receiver: string, memoText: string)

  /** The receiver inside a payment address, when it has one; decoding an address is not modelled. */
  type Decoder = string -> Option<string>

  datatype Index = Index(byAddress: map<(string, string), Invoice>, legacy: seq<(Invoice, string)>) {
    function Find(p: Payment): Option<Invoice> {
      if (p.merchant, p.receiver) in byAddress then Some(byAddress[(p.merchant, p.receiver)])
      else FirstPair(p, T.Trim(p.memoText), 0)
    }

    function FirstPair(p: Payment, memo: string, from: nat): Option<Invoice>
      requires from <= |legacy|
      decreases |legacy| - from
    {
      if from == |legacy| then None
      else
        var (invoice, receiver) := legacy[from];
        if invoice.merchant == p.merchant && receiver == p.receiver && memo != "" && invoice.memo == memo
        then Some(invoice)
        else FirstPair(p, memo, from + 1)
    }
  }

  /** The index of a list, invoice by invoice. */
  ghost function Indexed(decode: Decoder, invoices: seq<Invoice>): Index {
    if invoices == [] then Index(map[], [])
    else
      var before, last := Indexed(decode, invoices[..|invoices| - 1]), invoices[|invoices| - 1];
      match last.receiver
      case Some(receiver) => before.(byAddress := before.byAddress[(last.merchant, receiver) := last])
      case None =>
        match decode(last.address)
        case Some(receiver) => before.(legacy := before.legacy + [(last, receiver)])
        case None => before
  }

  method Build(decode: Decoder, invoices: seq<Invoice>) returns (index: Index)
    ensures index == Indexed(decode, invoices)
    ensures forall p :: index.Find(p) == Scan(decode, invoices, p)
  {
    var byAddress: map<(string, string), Invoice>, legacy: seq<(Invoice, string)> := map[], [];
    for i := 0 to |invoices|
      invariant Index(byAddress, legacy) == Indexed(decode, invoices[..i])
    {
      var invoice := invoices[i];
      assert invoices[..i + 1][..i] == invoices[..i];
      if invoice.receiver.Some? {
        byAddress := byAddress[(invoice.merchant, invoice.receiver.value) := invoice];
      } else {
        var derived := decode(invoice.address);
        if derived.Some? {
          legacy := legacy + [(invoice, derived.value)];
        }
      }
    }
    assert invoices[..|invoices|] == invoices;
    index := Index(byAddress, legacy);
    forall p: Payment ensures index.Find(p) == Scan(decode, invoices, p) {
      FindIsScan(decode, invoices, p);
    }
  }

  // ---- The scan ----

  predicate Stored(invoice: Invoice, p: Payment) {
    invoice.merchant == p.merchant && invoice.receiver == Some(p.receiver)
  }

  /** An invoice without a receiver of its own: its address and its whole memo must agree. */
  predicate Legacy(decode: Decoder, invoice: Invoice, p: Payment) {
    && invoice.receiver.None? && invoice.merchant == p.merchant && decode(invoice.address) == Some(p.receiver)
    && T.Trim(p.memoText) != "" && invoice.memo == T.Trim(p.memoText)
  }

  function LastStored(invoices: seq<Invoice>, p: Payment): (found: Option<Invoice>)
    ensures found.Some? ==> found.value in invoices && Stored(found.value, p)
    ensures found.None? ==> forall x <- invoices :: !Stored(x, p)
  {
    if invoices == [] then None
    else if Stored(invoices[|invoices| - 1], p) then Some(invoices[|invoices| - 1])
    else
      var found := LastStored(invoices[..|invoices| - 1], p);
      assert forall x <- invoices :: x in invoices[..|invoices| - 1] || x == invoices[|invoices| - 1];
      found
  }

  function FirstLegacy(decode: Decoder, invoices: seq<Invoice>, p: Payment): (found: Option<Invoice>)
    ensures found.Some? ==> found.value in invoices && Legacy(decode, found.value, p)
    ensures found.None? ==> forall x <- invoices :: !Legacy(decode, x, p)
  {
    if invoices == [] then None
    else if Legacy(decode, invoices[0], p) then Some(invoices[0])
    else
      assert forall x <- invoices :: x == invoices[0] || x in invoices[1..];
      FirstLegacy(decode, invoices[1..], p)
  }

  function Scan(decode: Decoder, invoices: seq<Invoice>, p: Payment): Option<Invoice> {
    var stored := LastStored(invoices, p);
    if stored.Some? then stored else FirstLegacy(decode, invoices, p)
  }

  lemma {:induction false} ByAddressIsLast(decode: Decoder, invoices: seq<Invoice>, p: Payment)
    ensures var index := Indexed(decode, invoices);
            var key := (p.merchant, p.receiver);
            LastStored(invoices, p) == if key in index.byAddress then Some(index.byAddress[key]) else None
  {
    if invoices != [] {
      ByAddressIsLast(decode, invoices[..|invoices| - 1], p);
    }
  }

  /** Looking from the front of a list that grows at its end. */
  lemma {:induction false} FirstLegacyGrows(decode: Decoder, invoices: seq<Invoice>, last: Invoice, p: Payment)
    ensures FirstLegacy(decode, invoices + [last], p) ==
            if FirstLegacy(decode, invoices, p).Some? then FirstLegacy(decode, invoices, p)
            else if Legacy(decode, last, p) then Some(last) else None
  {
    if invoices == [] {
      assert invoices + [last] == [last];
    } else {
      FirstLegacyGrows(decode, invoices[1..], last, p);
      assert (invoices + [last])[1..] == invoices[1..] + [last];
    }
  }

  lemma {:induction false} PairsGrow(index: Index, pair: (Invoice, string), p: Payment, memo: string, from: nat)
    requires from <= |index.legacy|
    ensures var longer := index.(legacy := index.legacy + [pair]);
            var hit := pair.0.merchant == p.merchant && pair.1 == p.receiver && memo != "" && pair.0.memo == memo;
            longer.FirstPair(p, memo, from) ==
            if index.FirstPair(p, memo, from).Some? then index.FirstPair(p, memo, from)
            else if hit then Some(pair.0) else None
    decreases |index.legacy| - from
  {
    if from < |index.legacy| {
      PairsGrow(index, pair, p, memo, from + 1);
    }
  }

  lemma {:induction false} OnlyLegacyMatters(index: Index, other: Index, p: Payment, memo: string, from: nat)
    requires index.legacy == other.legacy && from <= |index.legacy|
    ensures index.FirstPair(p, memo, from) == other.FirstPair(p, memo, from)
    decreases |index.legacy| - from
  {
    if from < |index.legacy| {
      OnlyLegacyMatters(index, other, p, memo, from + 1);
    }
  }

  lemma {:induction false} LegacyIsFirst(decode: Decoder, invoices: seq<Invoice>, p: Payment)
    ensures Indexed(decode, invoices).FirstPair(p, T.Trim(p.memoText), 0) == FirstLegacy(decode, invoices, p)
  {
    if invoices != [] {
      var before, last := invoices[..|invoices| - 1], invoices[|invoices| - 1];
      var memo := T.Trim(p.memoText);
      var index := Indexed(decode, before);
      LegacyIsFirst(decode, before, p);
      FirstLegacyGrows(decode, before, last, p);
      assert before + [last] == invoices;
      if last.receiver.Some? {
        OnlyLegacyMatters(index, Indexed(decode, invoices), p, memo, 0);
      } else if decode(last.address).Some? {
        PairsGrow(index, (last, decode(last.address).value), p, memo, 0);
      }
    }
  }

  /** The index answers as the scan does: the last invoice that stores the receiver, else the first legacy one. */
  lemma FindIsScan(decode: Decoder, invoices: seq<Invoice>, p: Payment)
    ensures Indexed(decode, invoices).Find(p) == Scan(decode, invoices, p)
  {
    ByAddressIsLast(decode, invoices, p);
    LegacyIsFirst(decode, invoices, p);
  }

  // ---- When the order of the list is irrelevant ----

  /** An invoice the payment could be matched to, by a stored receiver if any invoice has it. */
  ghost predicate Candidate(decode: Decoder, invoices: seq<Invoice>, invoice: Invoice, p: Payment) {
    && invoice in invoices
    && if exists x <- invoices :: Stored(x, p) then Stored(invoice, p) else Legacy(decode, invoice, p)
  }

  ghost predicate Unambiguous(decode: Decoder, invoices: seq<Invoice>, p: Payment) {
    forall x, y | Candidate(decode, invoices, x, p) && Candidate(decode, invoices, y, p) :: x == y
  }

  ghost predicate OrderIrrelevant(decode: Decoder, invoices: seq<Invoice>, p: Payment) {
    forall other: seq<Invoice> | multiset(other) == multiset(invoices) ::
      Scan(decode, other, p) == Scan(decode, invoices, p)
  }

  /** The answer is a candidate, and there is none only when there are no candidates. */
  lemma ScanIsCandidate(decode: Decoder, invoices: seq<Invoice>, p: Payment)
    ensures var found := Scan(decode, invoices, p);
            if found.Some? then Candidate(decode, invoices, found.value, p)
            else forall x :: !Candidate(decode, invoices, x, p)
  {
  }

  lemma SameMembers(a: seq<Invoice>, b: seq<Invoice>)
    requires multiset(a) == multiset(b)
    ensures forall x :: x in a <==> x in b
  {
    forall x: Invoice ensures x in a <==> x in b {
      assert x in multiset(a) <==> x in multiset(b);
    }
  }

  lemma SameCandidates(decode: Decoder, a: seq<Invoice>, b: seq<Invoice>, p: Payment)
    requires multiset(a) == multiset(b)
    ensures forall x :: Candidate(decode, a, x, p) <==> Candidate(decode, b, x, p)
  {
    SameMembers(a, b);
  }

  lemma TakeOut(invoices: seq<Invoice>, invoice: Invoice) returns (rest: seq<Invoice>)
    requires invoice in invoices
    ensures multiset(rest + [invoice]) == multiset(invoices) && multiset([invoice] + rest) == multiset(invoices)
  {
    var i :| 0 <= i < |invoices| && invoices[i] == invoice;
    rest := invoices[..i] + invoices[i + 1..];
    assert invoices == invoices[..i] + [invoice] + invoices[i + 1..];
  }

  lemma LastWins(decode: Decoder, rest: seq<Invoice>, invoice: Invoice, p: Payment)
    requires Stored(invoice, p)
    ensures Scan(decode, rest + [invoice], p) == Some(invoice)
  {
  }

  lemma FirstWins(decode: Decoder, rest: seq<Invoice>, invoice: Invoice, p: Payment)
    requires Legacy(decode, invoice, p) && forall x <- [invoice] + rest :: !Stored(x, p)
    ensures Scan(decode, [invoice] + rest, p) == Some(invoice)
  {
  }

  /** Some order of the list makes any chosen candidate the answer. */
  lemma AnyCandidateCanWin(decode: Decoder, invoices: seq<Invoice>, invoice: Invoice, p: Payment)
    returns (other: seq<Invoice>)
    requires Candidate(decode, invoices, invoice, p)
    ensures multiset(other) == multiset(invoices) && Scan(decode, other, p) == Some(invoice)
  {
    var rest := TakeOut(invoices, invoice);
    if Stored(invoice, p) {
      other := rest + [invoice];
      LastWins(decode, rest, invoice, p);
    } else {
      other := [invoice] + rest;
      SameMembers(other, invoices);
      FirstWins(decode, rest, invoice, p);
    }
  }

  /** Reordering the invoices never changes the answer exactly when the payment has at most one candidate. */
  lemma OrderIrrelevantIff(decode: Decoder, invoices: seq<Invoice>, p: Payment)
    ensures OrderIrrelevant(decode, invoices, p) <==> Unambiguous(decode, invoices, p)
  {
    if Unambiguous(decode, invoices, p) {
      forall other: seq<Invoice> | multiset(other) == multiset(invoices)
        ensures Scan(decode, other, p) == Scan(decode, invoices, p)
      {
        SameCandidates(decode, other, invoices, p);
        ScanIsCandidate(decode, other, p);
        ScanIsCandidate(decode, invoices, p);
      }
    }
    if OrderIrrelevant(decode, invoices, p) {
      forall x, y | Candidate(decode, invoices, x, p) && Candidate(decode, invoices, y, p)
        ensures x == y
      {
        var first := AnyCandidateCanWin(decode, invoices, x, p);
        var second := AnyCandidateCanWin(decode, invoices, y, p);
      }
    }
  }

  /** The keys of the index: merchant and stored receiver, or merchant, decoded receiver and memo. */
  ghost predicate UniqueKeys(decode: Decoder, invoices: seq<Invoice>) {
    forall x, y | x in invoices && y in invoices && x.merchant == y.merchant ::
      && (x.receiver.Some? && x.receiver == y.receiver ==> x == y)
      && (x.receiver.None? && y.receiver.None? && decode(x.address).Some? && decode(x.address) == decode(y.address) && x.memo == y.memo ==> x == y)
  }

  lemma UniqueKeysSuffice(decode: Decoder, invoices: seq<Invoice>, p: Payment)
    requires UniqueKeys(decode, invoices)
    ensures OrderIrrelevant(decode, invoices, p)
  {
    OrderIrrelevantIff(decode, invoices, p);
  }
}
