/** Settling x402 payments: one consumption row per transaction, one cached answer per idempotency key, and a
  * session funded by what the payment leaves over. */
module X402 {
  import opened Sums
  import T = Text

  const DAY := 86_400
  const DEFAULT_COST := 1_000

  /** A 64-bit unsigned value reinterpreted as signed. */
  function AsI64(n: U64): int { if n <= I64_MAX then n else n - 0x1_0000_0000_0000_0000 }

  datatype SessionConfig = SessionConfig(cost: Option<int>)

  datatype Request = Request(merchant: string, txid: string, network: string, price: U64, key: Option<string>,
                             digest: string, session: Option<SessionConfig>)

  datatype Session = Session(balance: int, cost: int)

  datatype Response = Response(transaction: string, network: string, amount: U64, session: Option<Session>)

  datatype Cached = Cached(digest: string, response: Response, at: nat)

  /** A history record: the request that succeeded, what was received for it, the answer, and when. */
  datatype Settled = Settled(request: Request, total: U64, response: Response, at: nat) {
    function Txid(): string { T.ToLower(request.txid) }

    predicate Keyed(merchant: string, key: string) { request.merchant == merchant && request.key == Some(key) }

    function Balance(): int { if response.session.Some? then response.session.value.balance else 0 }
  }

  datatype Tables = Tables(now: nat, consumed: set<string>, cache: map<(string, string), Cached>, history: seq<Settled>)

  datatype Lookup = Found(response: Response) | Missing | Mismatch

  datatype Answer = Success(response: Response) | Replayed(response: Response) | BadKey | KeyConflict | BadRequest
                  | Rejected | PaymentConsumed | Failed

  // ---- Functions of the tables ----

  predicate Live(cached: Cached, now: nat) { cached.at + DAY >= now }

  function CachedSettlement(t: Tables, merchant: string, key: string, digest: string): Lookup {
    if (merchant, key) in t.cache && Live(t.cache[(merchant, key)], t.now) then
      var row := t.cache[(merchant, key)];
      if row.digest == digest then Found(row.response) else Mismatch
    else Missing
  }

  datatype Funding = Refused | Unfunded | Funded(session: Session)

  function Surplus(total: U64, price: U64): int { AsI64(if total >= price then total - price else 0) }

  function Fund(request: Request, total: U64): Funding {
    match request.session
    case None => Unfunded
    case Some(config) =>
      var cost := if config.cost.Some? then config.cost.value else DEFAULT_COST;
      if cost <= 0 then Refused
      else if Surplus(total, request.price) >= cost then Funded(Session(Surplus(total, request.price), cost))
      else Unfunded
  }

  function Respond(request: Request, total: U64): Response {
    var funding := Fund(request, total);
    Response(request.txid, request.network, total, if funding.Funded? then Some(funding.session) else None)
  }

  function Expire(t: Tables, slot: (string, string)): Tables {
    if slot in t.cache && Live(t.cache[slot], t.now) then t else t.(cache := t.cache - {slot})
  }

  function Conclude(t: Tables, request: Request, total: U64): Tables {
    t.(consumed := t.consumed + {T.ToLower(request.txid)},
       history := t.history + [Settled(request, total, Respond(request, total), t.now)])
  }

  function Cache(t: Tables, slot: (string, string), digest: string, response: Response): Tables {
    t.(cache := t.cache[slot := Cached(digest, response, t.now)])
  }

  /** The settlement transaction. `fault`: encrypting or writing a row errs; `lag`: the time that passes between
    * removing an expired row and stamping the new one. Every error leaves the tables as they were. */
  function Commit(t: Tables, request: Request, total: U64, fault: bool, lag: nat): (Tables, Answer) {
    if T.ToLower(request.txid) in t.consumed then (t, PaymentConsumed)
    else if Fund(request, total).Refused? || fault then (t, Failed)
    else
      var response := Respond(request, total);
      var later := t.(now := t.now + lag);
      match request.key
      case None => (Conclude(later, request, total), Success(response))
      case Some(key) =>
        var slot := (request.merchant, key);
        if slot in Expire(t, slot).cache then (t, Failed)
        else (Cache(Conclude(later, request, total).(cache := Expire(t, slot).cache), slot, request.digest, response),
              Success(response))
  }

  /** What parsing and verifying the payment yields; the amount is the chain's word. */
  datatype Verdict = Malformed | NotPaid | Paid(total: U64)

  predicate GoodKey(key: Option<string>) { key.Some? ==> 0 < T.ByteLen(key.value) <= 128 }

  /** What the cache says of a request, which may have no key. */
  function Answered(t: Tables, request: Request): Lookup {
    if request.key.Some? then CachedSettlement(t, request.merchant, request.key.value, request.digest) else Missing
  }

  class Server {
    var now: nat
    var consumed: set<string>
    var cache: map<(string, string), Cached>
    ghost var history: seq<Settled>

    ghost function Value(): Tables
      reads this
    {
      Tables(now, consumed, cache, history)
    }

    method Lookup(merchant: string, key: string, digest: string) returns (found: Lookup)
      ensures found == CachedSettlement(Value(), merchant, key, digest)
    {
      if (merchant, key) in cache && cache[(merchant, key)].at + DAY >= now {
        var row := cache[(merchant, key)];
        return if row.digest == digest then Found(row.response) else Mismatch;
      }
      return Missing;
    }

    method CommitSettlement(request: Request, total: U64, fault: bool, lag: nat) returns (answer: Answer)
      modifies this
      ensures (Value(), answer) == Commit(old(Value()), request, total, fault, lag)
    {
      var txid := T.ToLower(request.txid);
      if txid in consumed {
        return PaymentConsumed;
      }
      var remaining := Surplus(total, request.price);
      var session: Option<Session> := None;
      if request.session.Some? {
        var cost := if request.session.value.cost.Some? then request.session.value.cost.value else DEFAULT_COST;
        if cost <= 0 {
          return Failed;
        }
        if remaining >= cost {
          session := Some(Session(remaining, cost));
        }
      }
      if fault {
        return Failed;
      }
      var response := Response(request.txid, request.network, total, session);
      if request.key.Some? {
        var slot := (request.merchant, request.key.value);
        if slot in cache && cache[slot].at + DAY >= now {
          return Failed;
        }
        cache := cache - {slot};
        now := now + lag;
        cache := cache[slot := Cached(request.digest, response, now)];
      } else {
        now := now + lag;
      }
      consumed := consumed + {txid};
      history := history + [Settled(request, total, response, now)];
      return Success(response);
    }

    /** One settle request with nothing else in between. */
    method Settle(request: Request, verdict: Verdict, fault: bool, lag: nat) returns (answer: Answer)
      modifies this
      ensures answer.BadKey? <==> !GoodKey(request.key)
      ensures !answer.BadKey? ==>
        match Answered(old(Value()), request)
        case Found(response) => answer == Replayed(response)
        case Mismatch => answer == KeyConflict
        case Missing =>
          match verdict
          case Malformed => answer == BadRequest
          case NotPaid => answer == Rejected
          case Paid(total) =>
            if total < request.price then answer == Rejected
            else (Value(), answer) == Commit(old(Value()), request, total, fault, lag)
      ensures !answer.Success? ==> Value() == old(Value())
    {
      if request.key.Some? {
        if T.ByteLen(request.key.value) == 0 || T.ByteLen(request.key.value) > 128 {
          return BadKey;
        }
        var found := Lookup(request.merchant, request.key.value, request.digest);
        match found {
          case Found(response) => return Replayed(response);
          case Mismatch => return KeyConflict;
          case Missing =>
        }
      }
      match verdict {
        case Malformed => return BadRequest;
        case NotPaid => return Rejected;
        case Paid(total) =>
          if total < request.price {
            return Rejected;
          }
          answer := CommitSettlement(request, total, fault, lag);
      }
    }
  }

  // ---- Runs: look-ups and commits of any number of requests, in any order ----

  /** Looking a key up and committing are separate steps of a request, so anything may come between them. */
  datatype Event =
    | Tick(seconds: nat)
    | Settles(request: Request, total: U64, fault: bool, lag: nat)
    | Purge
    | ConsumedElsewhere(txid: string)

  /** The maintenance job removes expired answers. */
  function Purged(t: Tables): Tables {
    t.(cache := map slot <- t.cache | Live(t.cache[slot], t.now) :: t.cache[slot])
  }

  /** A request commits only after its payment was verified to cover the price. */
  predicate Verified(e: Event) { e.Settles? ==> e.total >= e.request.price }

  function After(t: Tables, e: Event): Tables {
    match e
    case Tick(seconds) => t.(now := t.now + seconds)
    case Settles(request, total, fault, lag) => Commit(t, request, total, fault, lag).0
    case Purge => Purged(t)
    case ConsumedElsewhere(txid) => t.(consumed := t.consumed + {T.ToLower(txid)})
  }

  const EMPTY := Tables(0, {}, map[], [])

  function Run(events: seq<Event>): Tables {
    if events == [] then EMPTY else After(Run(events[..|events| - 1]), events[|events| - 1])
  }

  predicate AllVerified(events: seq<Event>) { forall i :: 0 <= i < |events| ==> Verified(events[i]) }

  // ---- The invariant ----

  /** What one success says: its answer is the one its request gets, and the payment covers price and session. */
  predicate Honest(t: Tables, i: nat)
    requires i < |t.history|
  {
    var s := t.history[i];
    && s.at <= t.now && s.Txid() in t.consumed
    && s.response == Respond(s.request, s.total) && s.total >= s.request.price
  }

  /** While it is live, the answer to a keyed success is in the cache. */
  predicate Kept(t: Tables, i: nat)
    requires i < |t.history|
  {
    var s := t.history[i];
    s.request.key.Some? && s.at + DAY >= t.now ==>
      var slot := (s.request.merchant, s.request.key.value);
      slot in t.cache && t.cache[slot] == Cached(s.request.digest, s.response, s.at)
  }

  /** Two successes are of different transactions, and with one key they are more than a day apart. */
  predicate Apart(t: Tables, i: nat, j: nat)
    requires i < |t.history| && j < |t.history|
  {
    var s, later := t.history[i], t.history[j];
    && s.Txid() != later.Txid()
    && (s.request.key.Some? && later.Keyed(s.request.merchant, s.request.key.value) ==> s.at + DAY < later.at)
  }

  predicate Explains(t: Tables, slot: (string, string), i: nat)
    requires i < |t.history| && slot in t.cache
  {
    var s := t.history[i];
    s.Keyed(slot.0, slot.1) && t.cache[slot] == Cached(s.request.digest, s.response, s.at)
  }

  /** A cached answer is the answer of some success. */
  predicate Explained(t: Tables, slot: (string, string))
    requires slot in t.cache
  {
    exists i: nat | i < |t.history| :: Explains(t, slot, i)
  }

  predicate AllHonest(t: Tables) { forall i: nat | i < |t.history| :: Honest(t, i) }

  predicate AllKept(t: Tables) { forall i: nat | i < |t.history| :: Kept(t, i) }

  predicate AllApart(t: Tables) { forall i: nat, j: nat | i < j < |t.history| :: Apart(t, i, j) }

  predicate AllExplained(t: Tables) { forall slot <- t.cache :: Explained(t, slot) }

  predicate Sound(t: Tables) { AllHonest(t) && AllKept(t) && AllApart(t) && AllExplained(t) }

  // ---- Every event keeps it ----

  lemma ConcludeKeeps(t: Tables, request: Request, total: U64)
    requires Sound(t) && T.ToLower(request.txid) !in t.consumed && total >= request.price
    ensures AllHonest(Conclude(t, request, total))
    ensures forall i: nat, j: nat | i < j < |t.history| :: Apart(Conclude(t, request, total), i, j)
    ensures forall i: nat | i < |t.history| :: Conclude(t, request, total).history[i] == t.history[i]
                                               && Honest(t, i) && t.history[i].Txid() != T.ToLower(request.txid)
  {
    var after := Conclude(t, request, total);
    forall i: nat | i < |after.history| ensures Honest(after, i) {
      if i < |t.history| {
        assert Honest(t, i);
      }
    }
    forall i: nat, j: nat | i < j < |t.history| ensures Apart(after, i, j) {
      assert Apart(t, i, j);
    }
  }

  lemma UnkeyedKeeps(t: Tables, request: Request, total: U64)
    requires Sound(t) && T.ToLower(request.txid) !in t.consumed && total >= request.price && request.key.None?
    ensures Sound(Conclude(t, request, total))
  {
    var after := Conclude(t, request, total);
    ConcludeKeeps(t, request, total);
    forall i: nat | i < |after.history| ensures Kept(after, i) {
      if i < |t.history| {
        assert Kept(t, i);
      }
    }
    forall slot <- after.cache ensures Explained(after, slot) {
      var i: nat :| i < |t.history| && Explains(t, slot, i);
      assert Explains(after, slot, i);
    }
  }

  lemma TimeKeeps(t: Tables, seconds: nat)
    requires Sound(t)
    ensures Sound(t.(now := t.now + seconds))
  {
    var after := t.(now := t.now + seconds);
    forall i: nat | i < |t.history| ensures Honest(after, i) && Kept(after, i) {
      assert Honest(t, i) && Kept(t, i);
    }
    forall i: nat, j: nat | i < j < |t.history| ensures Apart(after, i, j) {
      assert Apart(t, i, j);
    }
    forall slot <- t.cache ensures Explained(after, slot) {
      var i: nat :| i < |t.history| && Explains(t, slot, i);
      assert Explains(after, slot, i);
    }
  }

  /** Dropping rows that are no longer live, any of them, keeps everything. */
  lemma DropKeeps(t: Tables, cache: map<(string, string), Cached>)
    requires Sound(t)
    requires forall slot <- cache :: slot in t.cache && cache[slot] == t.cache[slot]
    requires forall slot <- t.cache :: Live(t.cache[slot], t.now) ==> slot in cache
    ensures Sound(t.(cache := cache))
  {
    var after := t.(cache := cache);
    forall i: nat | i < |t.history| ensures Honest(after, i) && Kept(after, i) {
      assert Honest(t, i) && Kept(t, i);
    }
    forall i: nat, j: nat | i < j < |t.history| ensures Apart(after, i, j) {
      assert Apart(t, i, j);
    }
    forall slot <- cache ensures Explained(after, slot) {
      var i: nat :| i < |t.history| && Explains(t, slot, i);
      assert Explains(after, slot, i);
    }
  }

  /** With the slot free, no live success holds the key. */
  lemma FreeSlot(t: Tables, slot: (string, string), i: nat)
    requires Sound(t) && slot !in t.cache && i < |t.history| && t.history[i].Keyed(slot.0, slot.1)
    ensures t.history[i].at + DAY < t.now
  {
    assert Kept(t, i);
  }

  lemma KeyedKeeps(t: Tables, request: Request, total: U64)
    requires Sound(t) && T.ToLower(request.txid) !in t.consumed && total >= request.price && request.key.Some?
    requires (request.merchant, request.key.value) !in t.cache
    ensures Sound(Cache(Conclude(t, request, total), (request.merchant, request.key.value), request.digest, Respond(request, total)))
  {
    var slot := (request.merchant, request.key.value);
    var after := Cache(Conclude(t, request, total), slot, request.digest, Respond(request, total));
    var n := |t.history|;
    ConcludeKeeps(t, request, total);
    forall i: nat | i < |after.history| ensures Honest(after, i) && Kept(after, i) {
      assert Honest(Conclude(t, request, total), i);
      if i < n {
        assert Kept(t, i);
      }
    }
    forall i: nat, j: nat | i < j < |after.history| ensures Apart(after, i, j) {
      if j < n {
        assert Apart(Conclude(t, request, total), i, j);
      } else if t.history[i].Keyed(slot.0, slot.1) {
        FreeSlot(t, slot, i);
      }
    }
    forall other <- after.cache ensures Explained(after, other) {
      if other == slot {
        assert Explains(after, slot, n);
      } else {
        var i: nat :| i < n && Explains(t, other, i);
        assert Explains(after, other, i);
      }
    }
  }

  lemma KeyedCommitKeeps(t: Tables, request: Request, total: U64, lag: nat)
    requires Sound(t) && T.ToLower(request.txid) !in t.consumed && total >= request.price && request.key.Some?
    requires (request.merchant, request.key.value) !in Expire(t, (request.merchant, request.key.value)).cache
    ensures var slot := (request.merchant, request.key.value);
      var cleared := Expire(t, slot).(now := t.now + lag);
      Sound(Cache(Conclude(cleared, request, total), slot, request.digest, Respond(request, total)))
  {
    var cleared := Expire(t, (request.merchant, request.key.value));
    DropKeeps(t, cleared.cache);
    assert t.(cache := cleared.cache) == cleared;
    TimeKeeps(cleared, lag);
    KeyedKeeps(cleared.(now := t.now + lag), request, total);
  }

  lemma CommitKeeps(t: Tables, request: Request, total: U64, fault: bool, lag: nat)
    requires Sound(t) && total >= request.price
    ensures Sound(Commit(t, request, total, fault, lag).0)
  {
    if Commit(t, request, total, fault, lag).1.Success? {
      if request.key.None? {
        TimeKeeps(t, lag);
        UnkeyedKeeps(t.(now := t.now + lag), request, total);
      } else {
        KeyedCommitKeeps(t, request, total, lag);
      }
    }
  }

  lemma ElsewhereKeeps(t: Tables, txid: string)
    requires Sound(t)
    ensures Sound(t.(consumed := t.consumed + {T.ToLower(txid)}))
  {
    var after := t.(consumed := t.consumed + {T.ToLower(txid)});
    forall i: nat | i < |t.history| ensures Honest(after, i) && Kept(after, i) {
      assert Honest(t, i) && Kept(t, i);
    }
    forall i: nat, j: nat | i < j < |t.history| ensures Apart(after, i, j) {
      assert Apart(t, i, j);
    }
    forall slot <- t.cache ensures Explained(after, slot) {
      var i: nat :| i < |t.history| && Explains(t, slot, i);
      assert Explains(after, slot, i);
    }
  }

  /** Every reachable state is sound, whatever the order of look-ups, commits, purges and the clock. */
  lemma {:induction false} RunIsSound(events: seq<Event>)
    requires AllVerified(events)
    ensures Sound(Run(events))
  {
    if events != [] {
      var before, e := Run(events[..|events| - 1]), events[|events| - 1];
      RunIsSound(events[..|events| - 1]);
      assert Verified(e);
      match e {
        case Tick(seconds) => TimeKeeps(before, seconds);
        case Settles(request, total, fault, lag) => CommitKeeps(before, request, total, fault, lag);
        case Purge => DropKeeps(before, Purged(before).cache);
        case ConsumedElsewhere(txid) => ElsewhereKeeps(before, txid);
      }
    }
  }

  // ---- What the invariant means ----

  /** A transaction, however its id is cased, backs at most one success; a key is good for one success in any
    * period of a day. */
  lemma OneSuccess(events: seq<Event>, i: nat, j: nat)
    requires AllVerified(events) && i < j < |Run(events).history|
    ensures var s, later := Run(events).history[i], Run(events).history[j];
            && T.ToLower(s.request.txid) != T.ToLower(later.request.txid)
            && (s.request.key.Some? && s.request.merchant == later.request.merchant && s.request.key == later.request.key ==>
                  later.at > s.at + DAY)
  {
    RunIsSound(events);
    assert Apart(Run(events), i, j);
  }

  /** For a day after a success, its key gives the stored answer to the same body and refuses any other. */
  lemma SameBodyReplays(events: seq<Event>, i: nat, digest: string)
    requires AllVerified(events) && i < |Run(events).history|
    ensures var t := Run(events);
            var s := t.history[i];
            s.request.key.Some? && s.at + DAY >= t.now ==>
              CachedSettlement(t, s.request.merchant, s.request.key.value, digest) ==
              if digest == s.request.digest then Found(s.response) else Mismatch
  {
    RunIsSound(events);
    assert Kept(Run(events), i);
  }

  /** A replayed answer is always that of an earlier success with the same merchant, key and body. */
  lemma ReplaysAreGenuine(events: seq<Event>, merchant: string, key: string, digest: string) returns (i: nat)
    requires AllVerified(events) && CachedSettlement(Run(events), merchant, key, digest).Found?
    ensures i < |Run(events).history|
    ensures var s := Run(events).history[i];
            && s.Keyed(merchant, key) && s.request.digest == digest && Live(Cached(digest, s.response, s.at), Run(events).now)
            && s.response == CachedSettlement(Run(events), merchant, key, digest).response
  {
    RunIsSound(events);
    var t := Run(events);
    assert Explained(t, (merchant, key));
    i :| i < |t.history| && Explains(t, (merchant, key), i);
  }

  /** Price and funded balance together never exceed what was received, signed conversion included, and a session
    * exists exactly when one was asked for at a positive cost that the signed surplus covers. */
  lemma PaymentCovers(request: Request, total: U64)
    requires total >= request.price
    ensures var s := Settled(request, total, Respond(request, total), 0);
            && request.price + s.Balance() <= total && s.Balance() >= 0
            && (s.response.session.Some? <==>
                  request.session.Some?
                  && var cost := if request.session.value.cost.Some? then request.session.value.cost.value else DEFAULT_COST;
                  0 < cost <= total - request.price < 0x8000_0000_0000_0000)
  {
  }

  /** What the successes hand out: the price each fulfils and the balance it funds. */
  function HandedOut(history: seq<Settled>): int {
    if history == [] then 0
    else
      var s := history[|history| - 1];
      HandedOut(history[..|history| - 1]) + s.request.price + s.Balance()
  }

  predicate Covers(received: map<string, int>, s: Settled) {
    s.Txid() in received && s.request.price + s.Balance() <= received[s.Txid()]
  }

  lemma {:induction false} DistinctPaymentsCover(history: seq<Settled>, received: map<string, int>)
    requires forall txid <- received :: received[txid] >= 0
    requires forall i: nat | i < |history| :: Covers(received, history[i])
    requires forall i: nat, j: nat | i < j < |history| :: history[i].Txid() != history[j].Txid()
    ensures HandedOut(history) <= Total(received)
    decreases |history|
  {
    if history == [] {
      TotalNonNegative(received);
    } else {
      var last := history[|history| - 1];
      var rest := received - {last.Txid()};
      TotalRemove(received, last.Txid());
      forall i: nat | i < |history| - 1 ensures Covers(rest, history[i]) {
        assert Covers(received, history[i]);
      }
      DistinctPaymentsCover(history[..|history| - 1], rest);
    }
  }

  /** Over a whole run, everything handed out was received: for any statement of what each transaction paid that
    * agrees with the verified totals, the sum of prices and balances is at most its sum. */
  lemma NothingFromNothing(events: seq<Event>, received: map<string, int>)
    requires AllVerified(events)
    requires forall txid <- received :: received[txid] >= 0
    requires forall i: nat | i < |Run(events).history| ::
               Run(events).history[i].Txid() in received && received[Run(events).history[i].Txid()] == Run(events).history[i].total
    ensures HandedOut(Run(events).history) <= Total(received)
  {
    RunIsSound(events);
    var t := Run(events);
    forall i: nat | i < |t.history| ensures Covers(received, t.history[i]) {
      assert Honest(t, i);
      PaymentCovers(t.history[i].request, t.history[i].total);
    }
    forall i: nat, j: nat | i < j < |t.history| ensures t.history[i].Txid() != t.history[j].Txid() {
      assert Apart(t, i, j);
    }
    DistinctPaymentsCover(t.history, received);
  }
}
