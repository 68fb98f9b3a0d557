/** Reading fee credits from the receipts of a NEAR transaction: which transfers count, and the id that
  * ties each credit to one transfer of one log of one receipt. */
module CreditEvents {
  import opened Sums
  import opened Text
  import F = FeeProofs

  datatype Transfer = Transfer(receiver: string, intent: Option<string>, tokens: map<string, string>)

  /** A log line: not an event, an event that does not parse, or an event with its transfers. */
  datatype Log = Plain | Unreadable | Event(standard: string, name: string, transfers: Option<seq<Transfer>>)

  datatype Receipt = Receipt(id: Option<string>, executor: string, succeeded: bool, logs: Option<seq<Log>>)

  datatype Transaction = Transaction(final: bool, hash: string, succeeded: bool, receipts: Option<seq<Receipt>>)

  datatype Query = Query(hash: string, intents: seq<string>, recipient: string, asset: string)

  // ---- Numbers in text ----

  predicate IsDigit(c: char) { '0' <= c <= '9' }

  function Decimal(n: nat): string {
    if n < 10 then [('0' as int + n) as char] else Decimal(n / 10) + [('0' as int + n % 10) as char]
  }

  function Number(s: string): nat
    requires forall i :: 0 <= i < |s| ==> IsDigit(s[i])
  {
    if s == [] then 0
    else
      assert IsDigit(s[|s| - 1]);
      10 * Number(s[..|s| - 1]) + (s[|s| - 1] as int - '0' as int)
  }

  lemma {:induction false} DecimalReads(n: nat)
    ensures forall i :: 0 <= i < |Decimal(n)| ==> IsDigit(Decimal(n)[i])
    ensures Number(Decimal(n)) == n && NoColon(Decimal(n))
  {
    if n >= 10 {
      DecimalReads(n / 10);
      assert Decimal(n)[..|Decimal(n)| - 1] == Decimal(n / 10);
    } else {
      assert Decimal(n)[..0] == [];
    }
  }

  /** An amount: decimal digits, positive, within 128 bits. */
  function PositiveUnits(raw: string): (units: Option<nat>)
    ensures units.Some? ==> 0 < units.value <= U128_MAX
  {
    if raw == [] || exists i :: 0 <= i < |raw| && !IsDigit(raw[i]) then None
    else if 0 < Number(raw) <= U128_MAX then Some(Number(raw))
    else None
  }

  /** A run of zeros before a number changes nothing. */
  predicate Zeros(s: string) { forall i :: 0 <= i < |s| ==> s[i] == '0' }

  lemma {:induction false} PaddedNumber(zeros: string, digits: string)
    requires Zeros(zeros) && forall i :: 0 <= i < |digits| ==> IsDigit(digits[i])
    ensures forall i :: 0 <= i < |zeros + digits| ==> IsDigit((zeros + digits)[i])
    ensures Number(zeros + digits) == Number(digits)
    decreases |zeros| + |digits|
  {
    var all := zeros + digits;
    if digits != [] {
      PaddedNumber(zeros, digits[..|digits| - 1]);
      assert all[..|all| - 1] == zeros + digits[..|digits| - 1];
    } else if zeros != [] {
      PaddedNumber(zeros[..|zeros| - 1], []);
      assert all[..|all| - 1] == zeros[..|zeros| - 1] + [];
    }
  }

  /** Digits with a positive value are some zeros followed by the decimal text of the value. */
  lemma {:induction false} SplitZeros(raw: string) returns (zeros: string)
    requires forall i :: 0 <= i < |raw| ==> IsDigit(raw[i])
    requires Number(raw) > 0
    ensures Zeros(zeros) && raw == zeros + Decimal(Number(raw))
    decreases |raw|
  {
    var front, last := raw[..|raw| - 1], raw[|raw| - 1];
    assert IsDigit(last) && raw == front + [last];
    if Number(front) > 0 {
      zeros := SplitZeros(front);
      assert zeros + Decimal(Number(front)) + [last] == zeros + (Decimal(Number(front)) + [last]);
    } else {
      zeros := front;
      AllZeros(front);
    }
  }

  lemma {:induction false} AllZeros(raw: string)
    requires forall i :: 0 <= i < |raw| ==> IsDigit(raw[i])
    requires Number(raw) == 0
    ensures Zeros(raw)
    decreases |raw|
  {
    if raw != [] {
      assert IsDigit(raw[|raw| - 1]);
      AllZeros(raw[..|raw| - 1]);
    }
  }

  /** The accepted texts of an amount are its decimal text after any number of zeros, and no others. */
  lemma AmountTexts(raw: string, n: nat)
    requires 0 < n <= U128_MAX
    ensures PositiveUnits(raw) == Some(n) <==> exists zeros :: Zeros(zeros) && raw == zeros + Decimal(n)
  {
    if PositiveUnits(raw) == Some(n) {
      var zeros := SplitZeros(raw);
    }
    if zeros :| Zeros(zeros) && raw == zeros + Decimal(n) {
      DecimalReads(n);
      PaddedNumber(zeros, Decimal(n));
    }
  }

  // ---- The ids of credits ----

  function ProofId(receipt: string, log: nat, index: nat, asset: string): string {
    receipt + ":" + (Decimal(log) + ":" + (Decimal(index) + ":" + asset))
  }

  /** An id names its receipt, log, transfer and asset, whatever colons the asset holds; receipt ids hold none. */
  lemma ProofIdsAreDistinct(r: string, j: nat, k: nat, asset: string, r': string, j': nat, k': nat, asset': string)
    requires NoColon(r) && NoColon(r') && ProofId(r, j, k, asset) == ProofId(r', j', k', asset')
    ensures r == r' && j == j' && k == k' && asset == asset'
  {
    DecimalReads(j);
    DecimalReads(j');
    DecimalReads(k);
    DecimalReads(k');
    var inner, inner' := Decimal(k) + ":" + asset, Decimal(k') + ":" + asset';
    ColonSplits(r, r', Decimal(j) + ":" + inner, Decimal(j') + ":" + inner');
    ColonSplits(Decimal(j), Decimal(j'), inner, inner');
    ColonSplits(Decimal(k), Decimal(k'), asset, asset');
  }

  // ---- Which transfers count ----

  datatype Judgement = Irrelevant | Invalid | Pays(units: nat)

  function Judge(q: Query, t: Transfer): Judgement {
    if t.receiver != q.recipient || t.intent.None? || t.intent.value !in q.intents || q.asset !in t.tokens then Irrelevant
    else
      var units := PositiveUnits(t.tokens[q.asset]);
      if units.Some? then Pays(units.value) else Invalid
  }

  predicate IsTransferEvent(log: Log) { log.Event? && log.standard == "dip4" && log.name == "transfer" }

  predicate Relevant(r: Receipt) { r.executor == "intents.near" && r.succeeded }

  /** Transfer `k` of log `j` of receipt `r` is a fee credit of `units`. */
  predicate Credited(q: Query, r: Receipt, j: nat, k: nat, units: nat) {
    && Relevant(r) && r.id.Some? && r.logs.Some? && j < |r.logs.value|
    && var log := r.logs.value[j];
    && IsTransferEvent(log) && log.transfers.Some? && k < |log.transfers.value|
    && Judge(q, log.transfers.value[k]) == Pays(units)
  }

  function CreditOf(q: Query, id: string, j: nat, k: nat, units: nat): F.Credit { F.Credit(ProofId(id, j, k, q.asset), units) }

  // ---- Gathering credits over lists ----

  type Credits = Option<seq<F.Credit>>

  /** Everything a list yields, in order; one error spoils the whole. */
  ghost function Gather<T>(f: (nat, T) -> Credits, xs: seq<T>): Credits {
    if xs == [] then Some([])
    else
      var before, last := Gather(f, xs[..|xs| - 1]), f(|xs| - 1, xs[|xs| - 1]);
      if before.None? || last.None? then None else Some(before.value + last.value)
  }

  lemma {:induction false} ErrorSpoils<T>(f: (nat, T) -> Credits, xs: seq<T>, k: nat)
    requires k <= |xs| && Gather(f, xs[..k]).None?
    ensures Gather(f, xs).None?
    decreases |xs| - k
  {
    if k < |xs| {
      assert xs[..k + 1][..k] == xs[..k];
      ErrorSpoils(f, xs, k + 1);
    } else {
      assert xs[..k] == xs;
    }
  }

  lemma GatherOne<T>(f: (nat, T) -> Credits, xs: seq<T>, k: nat, credits: seq<F.Credit>)
    requires k < |xs| && Gather(f, xs[..k]) == Some(credits)
    ensures f(k, xs[k]).Some? ==> Gather(f, xs[..k + 1]) == Some(credits + f(k, xs[k]).value)
    ensures f(k, xs[k]).None? ==> Gather(f, xs).None?
  {
    assert xs[..k + 1][..k] == xs[..k];
    if f(k, xs[k]).None? {
      ErrorSpoils(f, xs, k + 1);
    }
  }

  function OfTransfer(q: Query, id: string, j: nat): (nat, Transfer) -> Credits {
    (k: nat, t: Transfer) =>
      match Judge(q, t)
      case Irrelevant => Some([])
      case Invalid => None
      case Pays(units) => Some([CreditOf(q, id, j, k, units)])
  }

  ghost function OfLog(q: Query, id: string): (nat, Log) -> Credits {
    (j: nat, log: Log) =>
      if log.Unreadable? then None
      else if !IsTransferEvent(log) then Some([])
      else if log.transfers.None? then None
      else Gather(OfTransfer(q, id, j), log.transfers.value)
  }

  ghost function OfReceipt(q: Query): (nat, Receipt) -> Credits {
    (i: nat, r: Receipt) =>
      if !Relevant(r) then Some([])
      else if r.id.None? || r.logs.None? then None
      else Gather(OfLog(q, r.id.value), r.logs.value)
  }

  predicate Usable(q: Query, t: Transaction) { t.final && t.hash == q.hash && t.succeeded && t.receipts.Some? }

  // ---- The loops ----

  method TransferCredits(q: Query, id: string, j: nat, ts: seq<Transfer>) returns (found: Credits)
    ensures found == Gather(OfTransfer(q, id, j), ts)
  {
    var credits := [];
    for k := 0 to |ts|
      invariant Gather(OfTransfer(q, id, j), ts[..k]) == Some(credits)
    {
      GatherOne(OfTransfer(q, id, j), ts, k, credits);
      match Judge(q, ts[k]) {
        case Irrelevant => assert credits + [] == credits;
        case Invalid => return None;
        case Pays(units) => credits := credits + [CreditOf(q, id, j, k, units)];
      }
    }
    assert ts[..|ts|] == ts;
    return Some(credits);
  }

  method LogCredits(q: Query, id: string, logs: seq<Log>) returns (found: Credits)
    ensures found == Gather(OfLog(q, id), logs)
  {
    var credits := [];
    for j := 0 to |logs|
      invariant Gather(OfLog(q, id), logs[..j]) == Some(credits)
    {
      GatherOne(OfLog(q, id), logs, j, credits);
      if logs[j].Unreadable? {
        return None;
      }
      if IsTransferEvent(logs[j]) {
        if logs[j].transfers.None? {
          return None;
        }
        var more := TransferCredits(q, id, j, logs[j].transfers.value);
        if more.None? {
          return None;
        }
        credits := credits + more.value;
      } else {
        assert credits + [] == credits;
      }
    }
    assert logs[..|logs|] == logs;
    return Some(credits);
  }

  method ReadCredits(q: Query, t: Transaction) returns (found: Credits)
    ensures found == if Usable(q, t) then Gather(OfReceipt(q), t.receipts.value) else None
  {
    if !t.final || t.hash != q.hash || !t.succeeded || t.receipts.None? {
      return None;
    }
    var rs := t.receipts.value;
    var credits := [];
    for i := 0 to |rs|
      invariant Gather(OfReceipt(q), rs[..i]) == Some(credits)
    {
      GatherOne(OfReceipt(q), rs, i, credits);
      if Relevant(rs[i]) {
        if rs[i].id.None? || rs[i].logs.None? {
          return None;
        }
        var more := LogCredits(q, rs[i].id.value, rs[i].logs.value);
        if more.None? {
          return None;
        }
        credits := credits + more.value;
      } else {
        assert credits + [] == credits;
      }
    }
    assert rs[..|rs|] == rs;
    return Some(credits);
  }

  // ---- Exactly the credited transfers, each once ----

  /** Element `i` yields credit `c`. */
  ghost predicate Yields<T>(f: (nat, T) -> Credits, xs: seq<T>, i: nat, c: F.Credit) {
    i < |xs| && f(i, xs[i]).Some? && c in f(i, xs[i]).value
  }

  /** Elements repeat no proof id, alone or between them. */
  ghost predicate NoRepeats<T>(f: (nat, T) -> Credits, xs: seq<T>) {
    && (forall i: nat | i < |xs| && f(i, xs[i]).Some? :: F.Distinct(f(i, xs[i]).value))
    && (forall i: nat, j: nat, c, d | i < j && Yields(f, xs, i, c) && Yields(f, xs, j, d) :: c.proof != d.proof)
  }

  lemma JoinDistinct(a: seq<F.Credit>, b: seq<F.Credit>)
    requires F.Distinct(a) && F.Distinct(b) && forall c, d | c in a && d in b :: c.proof != d.proof
    ensures F.Distinct(a + b)
  {
  }

  lemma {:induction false} GatherMembers<T>(f: (nat, T) -> Credits, xs: seq<T>, c: F.Credit)
    requires Gather(f, xs).Some?
    ensures c in Gather(f, xs).value <==> exists i: nat :: Yields(f, xs, i, c)
    decreases |xs|
  {
    if xs != [] {
      var n := |xs| - 1;
      GatherMembers(f, xs[..n], c);
      if i: nat :| Yields(f, xs[..n], i, c) {
        assert Yields(f, xs, i, c);
      }
      if i: nat :| Yields(f, xs, i, c) {
        assert i < n ==> Yields(f, xs[..n], i, c);
      }
      assert c in f(n, xs[n]).value ==> Yields(f, xs, n, c);
    }
  }

  lemma {:induction false} GatherDistinct<T>(f: (nat, T) -> Credits, xs: seq<T>)
    requires Gather(f, xs).Some? && NoRepeats(f, xs)
    ensures F.Distinct(Gather(f, xs).value)
    decreases |xs|
  {
    if xs != [] {
      var n := |xs| - 1;
      forall i: nat, c | Yields(f, xs[..n], i, c) ensures Yields(f, xs, i, c) {
      }
      GatherDistinct(f, xs[..n]);
      var before, last := Gather(f, xs[..n]).value, f(n, xs[n]).value;
      forall c, d | c in before && d in last ensures c.proof != d.proof {
        GatherMembers(f, xs[..n], c);
        var i: nat :| Yields(f, xs[..n], i, c);
        assert Yields(f, xs, i, c) && Yields(f, xs, n, d);
      }
      JoinDistinct(before, last);
    }
  }

  lemma TransferIds(q: Query, id: string, j: nat, ts: seq<Transfer>, c: F.Credit) returns (k: nat, units: nat)
    requires Gather(OfTransfer(q, id, j), ts).Some? && c in Gather(OfTransfer(q, id, j), ts).value
    ensures k < |ts| && Judge(q, ts[k]) == Pays(units) && c == CreditOf(q, id, j, k, units)
  {
    GatherMembers(OfTransfer(q, id, j), ts, c);
    k :| Yields(OfTransfer(q, id, j), ts, k, c);
    units := Judge(q, ts[k]).units;
  }

  lemma TransfersDistinct(q: Query, id: string, j: nat, ts: seq<Transfer>)
    requires NoColon(id) && Gather(OfTransfer(q, id, j), ts).Some?
    ensures F.Distinct(Gather(OfTransfer(q, id, j), ts).value)
  {
    var f := OfTransfer(q, id, j);
    forall i: nat, k: nat, c, d | i < k && Yields(f, ts, i, c) && Yields(f, ts, k, d) ensures c.proof != d.proof {
      if c.proof == d.proof {
        ProofIdsAreDistinct(id, j, i, q.asset, id, j, k, q.asset);
      }
    }
    GatherDistinct(f, ts);
  }

  lemma LogIds(q: Query, id: string, logs: seq<Log>, c: F.Credit) returns (j: nat, k: nat, units: nat)
    requires Gather(OfLog(q, id), logs).Some? && c in Gather(OfLog(q, id), logs).value
    ensures j < |logs| && IsTransferEvent(logs[j]) && logs[j].transfers.Some? && k < |logs[j].transfers.value|
    ensures Judge(q, logs[j].transfers.value[k]) == Pays(units) && c == CreditOf(q, id, j, k, units)
  {
    GatherMembers(OfLog(q, id), logs, c);
    j :| Yields(OfLog(q, id), logs, j, c);
    k, units := TransferIds(q, id, j, logs[j].transfers.value, c);
  }

  lemma LogsDistinct(q: Query, id: string, logs: seq<Log>)
    requires NoColon(id) && Gather(OfLog(q, id), logs).Some?
    ensures F.Distinct(Gather(OfLog(q, id), logs).value)
  {
    var f := OfLog(q, id);
    forall i: nat | i < |logs| && f(i, logs[i]).Some? ensures F.Distinct(f(i, logs[i]).value) {
      if IsTransferEvent(logs[i]) {
        TransfersDistinct(q, id, i, logs[i].transfers.value);
      }
    }
    forall i: nat, j: nat, c, d | i < j && Yields(f, logs, i, c) && Yields(f, logs, j, d) ensures c.proof != d.proof {
      var k, m := TransferIds(q, id, i, logs[i].transfers.value, c);
      var l, n := TransferIds(q, id, j, logs[j].transfers.value, d);
      if c.proof == d.proof {
        ProofIdsAreDistinct(id, i, k, q.asset, id, j, l, q.asset);
      }
    }
    GatherDistinct(f, logs);
  }

  /** The receipts that count have ids without colons, and no two the same. */
  predicate GoodIds(rs: seq<Receipt>) {
    && (forall i: nat | i < |rs| && Relevant(rs[i]) && rs[i].id.Some? :: NoColon(rs[i].id.value))
    && (forall i: nat, j: nat | i < j < |rs| && Relevant(rs[i]) && Relevant(rs[j]) && rs[i].id.Some? :: rs[i].id != rs[j].id)
  }

  lemma ReceiptIds(q: Query, rs: seq<Receipt>, i: nat, c: F.Credit) returns (j: nat, k: nat, units: nat)
    requires Yields(OfReceipt(q), rs, i, c)
    ensures Credited(q, rs[i], j, k, units) && c == CreditOf(q, rs[i].id.value, j, k, units)
  {
    j, k, units := LogIds(q, rs[i].id.value, rs[i].logs.value, c);
  }

  /** No credit of a transaction repeats another's proof id. */
  lemma CreditsAreDistinct(q: Query, rs: seq<Receipt>)
    requires GoodIds(rs) && Gather(OfReceipt(q), rs).Some?
    ensures F.Distinct(Gather(OfReceipt(q), rs).value)
  {
    var f := OfReceipt(q);
    forall i: nat | i < |rs| && f(i, rs[i]).Some? ensures F.Distinct(f(i, rs[i]).value) {
      if Relevant(rs[i]) {
        LogsDistinct(q, rs[i].id.value, rs[i].logs.value);
      }
    }
    forall i: nat, j: nat, c, d | i < j && Yields(f, rs, i, c) && Yields(f, rs, j, d) ensures c.proof != d.proof {
      var a, b, m := ReceiptIds(q, rs, i, c);
      var a', b', n := ReceiptIds(q, rs, j, d);
      if c.proof == d.proof {
        ProofIdsAreDistinct(rs[i].id.value, a, b, q.asset, rs[j].id.value, a', b', q.asset);
      }
    }
    GatherDistinct(f, rs);
  }

  lemma {:induction false} GatherParts<T>(f: (nat, T) -> Credits, xs: seq<T>, i: nat)
    requires Gather(f, xs).Some? && i < |xs|
    ensures f(i, xs[i]).Some?
    decreases |xs|
  {
    if i < |xs| - 1 {
      GatherParts(f, xs[..|xs| - 1], i);
    }
  }

  lemma CreditedIsFound(q: Query, rs: seq<Receipt>, i: nat, j: nat, k: nat, units: nat)
    requires Gather(OfReceipt(q), rs).Some? && i < |rs| && Credited(q, rs[i], j, k, units)
    ensures CreditOf(q, rs[i].id.value, j, k, units) in Gather(OfReceipt(q), rs).value
  {
    var id, logs := rs[i].id.value, rs[i].logs.value;
    var c := CreditOf(q, id, j, k, units);
    GatherParts(OfReceipt(q), rs, i);
    GatherParts(OfLog(q, id), logs, j);
    assert Yields(OfTransfer(q, id, j), logs[j].transfers.value, k, c);
    GatherMembers(OfTransfer(q, id, j), logs[j].transfers.value, c);
    assert Yields(OfLog(q, id), logs, j, c);
    GatherMembers(OfLog(q, id), logs, c);
    assert Yields(OfReceipt(q), rs, i, c);
    GatherMembers(OfReceipt(q), rs, c);
  }

  ghost predicate IsCredit(q: Query, rs: seq<Receipt>, c: F.Credit) {
    exists i: nat, j: nat, k: nat, units: nat | i < |rs| && Credited(q, rs[i], j, k, units) ::
      c == CreditOf(q, rs[i].id.value, j, k, units)
  }

  /** When nothing is malformed, the credits found are exactly the transfers to our recipient that carry one of
    * the swap's intents and the fee asset, in successful receipts of the intents contract. */
  lemma FoundIffCredited(q: Query, rs: seq<Receipt>, c: F.Credit)
    requires Gather(OfReceipt(q), rs).Some?
    ensures c in Gather(OfReceipt(q), rs).value <==> IsCredit(q, rs, c)
  {
    GatherMembers(OfReceipt(q), rs, c);
    if c in Gather(OfReceipt(q), rs).value {
      var i: nat :| Yields(OfReceipt(q), rs, i, c);
      var j, k, units := ReceiptIds(q, rs, i, c);
    }
    if i: nat, j: nat, k: nat, units: nat :| i < |rs| && Credited(q, rs[i], j, k, units) && c == CreditOf(q, rs[i].id.value, j, k, units) {
      CreditedIsFound(q, rs, i, j, k, units);
    }
  }
}
