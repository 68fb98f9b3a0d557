/** One swap per invoice: creating it across browsers and crashes, and the lock around sending it. */
module SwapAttempts {
  import opened Sums

  datatype Progress = Creating | NeedsReview | PendingDeposit | KnownDeposit | Incomplete | Processing | Success | Refunded | Failed

  /** The stored attempt: provider state, the saved deposit instructions, the send lock and what was sent. */
  datatype Attempt = Attempt(state: Progress, payload: Option<string>, token: Option<string>, sent: Option<string>)

  // ---- single statements on the attempt row -------------------------------------------------

  /** `INSERT OR IGNORE`: only the first reservation makes the row. */
  function Reserved(row: Option<Attempt>): Option<Attempt> {
    if row.Some? then row else Some(Attempt(Creating, None, None, None))
  }

  function Saved(row: Option<Attempt>, deposit: string): Option<Attempt> {
    if row.None? then row else Some(row.value.(state := PendingDeposit, payload := Some(deposit)))
  }

  function Reviewed(row: Option<Attempt>): Option<Attempt> {
    if row.None? || row.value.payload.Some? then row else Some(row.value.(state := NeedsReview))
  }

  /** Provider states a status poll may store. */
  predicate Reportable(s: Progress) { s != Creating && s != NeedsReview }

  function Polled(row: Option<Attempt>, s: Progress): Option<Attempt> {
    if row.None? || row.value.payload.None? || !Reportable(s) || row.value.state == Success || row.value.state == Refunded then row
    else Some(row.value.(state := s))
  }

  function Delivered(row: Option<Attempt>): Option<Attempt> {
    if row.None? then row else Some(row.value.(state := Success))
  }

  predicate CanStart(row: Option<Attempt>) {
    row.Some? && row.value.payload.Some? && row.value.token.None? && row.value.state == PendingDeposit
  }

  predicate CanReject(row: Option<Attempt>, token: string) {
    row.Some? && row.value.token == Some(token) && row.value.sent.None? && row.value.state == PendingDeposit
  }

  predicate IsAlphanumeric(c: char) { '0' <= c <= '9' || 'a' <= c <= 'z' || 'A' <= c <= 'Z' }

  predicate IsTxid(txid: string) { 32 <= |txid| <= 128 && forall c <- txid :: IsAlphanumeric(c) }

  predicate CanSubmit(row: Option<Attempt>, token: string, txid: string) {
    row.Some? && row.value.token == Some(token) && row.value.sent.None? && IsTxid(txid)
  }

  /** The three updates of the send lock. */
  function Locked(row: Option<Attempt>, token: string): Option<Attempt>
    requires row.Some?
  {
    Some(row.value.(token := Some(token)))
  }

  function Unlocked(row: Option<Attempt>): Option<Attempt>
    requires row.Some?
  {
    Some(row.value.(token := None))
  }

  function Sent(row: Option<Attempt>, txid: string): Option<Attempt>
    requires row.Some?
  {
    Some(row.value.(sent := Some(txid)))
  }

  /** The stored row, updated in place. */
  class Checkout {
    var row: Option<Attempt>

    /** True for the one caller that made the reservation. */
    method Reserve(available: bool) returns (mine: bool)
      modifies this
      ensures mine <==> available && old(row).None?
      ensures row == if available then Reserved(old(row)) else old(row)
    {
      if !available || row.Some? {
        return false;
      }
      row := Reserved(row);
      return true;
    }

    /** A create request from start to end: an existing attempt is shown again; the one that reserves asks
        for a quote and saves it, or marks the attempt for review. `answer` is the provider's validated
        quote; the save may fail, or succeed without the caller learning of it. */
    method Create(available: bool, answer: Option<string>, committed: bool, acknowledged: bool) returns (shown: Option<string>)
      modifies this
      ensures old(row).Some? ==> row == old(row) && shown == row.value.payload
      ensures old(row).None? && !available ==> row.None? && shown.None?
      ensures old(row).None? && available ==>
        && row.Some? && row.value.token.None? && row.value.sent.None?
        && row.value.payload == (if committed then answer else None)
        && row.value.state == (if row.value.payload.Some? then PendingDeposit else NeedsReview)
        && shown == (if acknowledged then row.value.payload else None)
    {
      if row.Some? {
        return row.value.payload;
      }
      var mine := Reserve(available);
      if !mine {
        return None;
      }
      if answer.Some? && committed {
        row := Saved(row, answer.value);
        if acknowledged {
          return answer;
        }
      }
      row := Reviewed(row);
      return None;
    }

    method StoreStatus(s: Progress)
      modifies this
      ensures row == Polled(old(row), s)
    {
      if row.Some? && row.value.payload.Some? && Reportable(s) {
        row := Polled(row, s);
      }
    }

    /** `payable`: the invoice is still pending with nothing received, and the quote is fresh. */
    method StartSend(token: string, payable: bool) returns (ok: bool)
      modifies this
      ensures ok <==> payable && CanStart(old(row))
      ensures row == if ok then Locked(old(row), token) else old(row)
    {
      if !payable || row.None? || row.value.payload.None? || row.value.token.Some? || row.value.state != PendingDeposit {
        return false;
      }
      row := Locked(row, token);
      return true;
    }

    method RejectSend(token: string) returns (ok: bool)
      modifies this
      ensures ok <==> CanReject(old(row), token)
      ensures row == if ok then Unlocked(old(row)) else old(row)
    {
      if row.None? || row.value.token != Some(token) || row.value.sent.Some? || row.value.state != PendingDeposit {
        return false;
      }
      row := Unlocked(row);
      return true;
    }

    method SubmitSend(token: string, txid: string) returns (ok: bool)
      modifies this
      ensures ok <==> CanSubmit(old(row), token, txid)
      ensures row == if ok then Sent(old(row), txid) else old(row)
    {
      if !IsTxid(txid) || row.None? || row.value.token != Some(token) || row.value.sent.Some? {
        return false;
      }
      row := Sent(row, txid);
      return true;
    }
  }

  // ---- many browsers, any of which may crash after any step --------------------------------

  /** Where a create request stands between its separate database and provider calls. */
  datatype Phase = Preparing | Holding | Asked | Answered(deposit: string) | Stored(deposit: string) | Failing

  /** `requests` counts binding quotes asked of the provider, `writes` payload writes; `shown` holds
      every deposit any buyer was shown; the last four record the send lock's history. */
  datatype World = World(
    row: Option<Attempt>, clients: map<Id, Phase>,
    requests: nat, writes: nat, shown: set<string>,
    starts: nat, rejections: nat, granted: set<string>, released: set<string>)

  datatype Event =
    | Open(c: Id)                                  // reads the attempt: shows it, or goes on to create one
    | Reserve(c: Id, available: bool)
    | Ask(c: Id)                                   // the binding provider quote
    | Hear(c: Id, deposit: Option<string>)         // its validated answer, or a failure
    | Persist(c: Id, committed: bool, acknowledged: bool)
    | Show(c: Id)
    | Review(c: Id)
    | Crash(c: Id)
    | Poll(s: Progress)
    | Deliver
    | Start(token: string, payable: bool)
    | Reject(token: string)
    | Submit(token: string, txid: string)

  predicate At(w: World, c: Id, p: Phase) { c in w.clients && w.clients[c] == p }

  function Move(w: World, c: Id, p: Phase): World { w.(clients := w.clients[c := p]) }
  function Leave(w: World, c: Id): World { w.(clients := w.clients - {c}) }

  /** Random tokens never repeat. */
  predicate Possible(w: World, e: Event) {
    match e
    case Open(c) => c !in w.clients
    case Start(token, _) => token !in w.granted
    case _ => true
  }

  function Next(w: World, e: Event): World {
    match e
    case Open(c) =>
      if w.row.None? then Move(w, c, Preparing)
      else if w.row.value.payload.Some? then w.(shown := w.shown + {w.row.value.payload.value})
      else w
    case Reserve(c, available) =>
      if !At(w, c, Preparing) then w
      else if !available || w.row.Some? then Leave(w, c)
      else Move(w.(row := Reserved(w.row)), c, Holding)
    case Ask(c) => if At(w, c, Holding) then Move(w.(requests := w.requests + 1), c, Asked) else w
    case Hear(c, d) => if At(w, c, Asked) then Move(w, c, if d.Some? then Answered(d.value) else Failing) else w
    case Persist(c, committed, acknowledged) =>
      if c !in w.clients || !w.clients[c].Answered? then w
      else
        var d := w.clients[c].deposit;
        var w' := if committed then w.(row := Saved(w.row, d), writes := w.writes + 1) else w;
        Move(w', c, if committed && acknowledged then Stored(d) else Failing)
    case Show(c) =>
      if c in w.clients && w.clients[c].Stored? then Leave(w.(shown := w.shown + {w.clients[c].deposit}), c) else w
    case Review(c) => if At(w, c, Failing) then Leave(w.(row := Reviewed(w.row)), c) else w
    case Crash(c) => Leave(w, c)
    case Poll(s) => w.(row := Polled(w.row, s))
    case Deliver => if w.row.Some? && w.row.value.payload.Some? then w.(row := Delivered(w.row)) else w
    case Start(token, payable) =>
      if payable && CanStart(w.row)
      then w.(row := Locked(w.row, token), starts := w.starts + 1, granted := w.granted + {token})
      else w.(granted := w.granted + {token})
    case Reject(token) =>
      if CanReject(w.row, token)
      then w.(row := Unlocked(w.row), rejections := w.rejections + 1, released := w.released + {token})
      else w
    case Submit(token, txid) =>
      if CanSubmit(w.row, token, txid) then w.(row := Sent(w.row, txid)) else w
  }

  predicate Fresh(w: World) { w == World(None, map[], 0, 0, {}, 0, 0, {}, {}) }

  function Run(w: World, events: seq<Event>): World
    decreases |events|
  {
    if events == [] then w else Next(Run(w, events[..|events| - 1]), events[|events| - 1])
  }

  ghost predicate Legal(w: World, events: seq<Event>) {
    forall k :: 0 <= k < |events| ==> Possible(Run(w, events[..k]), events[k])
  }

  // ---- creation -----------------------------------------------------------------------------

  predicate Owns(w: World, c: Id) { c in w.clients && w.clients[c] != Preparing }

  predicate OwnerOk(w: World, c: Id) {
    Owns(w, c) ==>
      && w.row.Some?
      && (w.clients[c] == Holding ==> w.requests == 0 && w.writes == 0)
      && (w.clients[c] == Asked || w.clients[c].Answered? ==> w.requests == 1 && w.writes == 0)
      && (w.clients[c].Stored? ==> w.row.value.payload == Some(w.clients[c].deposit))
  }

  ghost predicate CreationOk(w: World) {
    && w.writes <= w.requests <= 1
    && (w.row.None? ==> w.requests == 0 && w.shown == {})
    && (w.row.Some? ==> (w.row.value.payload.Some? <==> w.writes == 1))
    && (forall d :: d in w.shown ==> w.row.Some? && w.row.value.payload == Some(d))
    && (forall c {:trigger OwnerOk(w, c)} :: OwnerOk(w, c))
    && (forall c, d :: Owns(w, c) && Owns(w, d) ==> c == d)
  }

  lemma NextKeepsCreation(w: World, e: Event)
    requires CreationOk(w) && Possible(w, e)
    ensures CreationOk(Next(w, e))
  {
    var w' := Next(w, e);
    forall c
      ensures OwnerOk(w', c)
      ensures Owns(w', c) ==> (Owns(w, c) && w.row.Some?) || (e.Reserve? && c == e.c && w.row.None?)
    {
      assert OwnerOk(w, c);
      if e.Ask? || e.Persist? || e.Show? || e.Review? || e.Hear? || e.Reserve? {
        assert OwnerOk(w, e.c);
        assert Owns(w, c) && Owns(w, e.c) ==> c == e.c;
      }
    }
    if e.Ask? || e.Persist? || e.Show? {
      assert OwnerOk(w, e.c);
    }
  }

  lemma {:induction false} RunKeepsCreation(w: World, events: seq<Event>)
    requires Fresh(w) && Legal(w, events)
    ensures CreationOk(Run(w, events))
    decreases |events|
  {
    if events != [] {
      var front := events[..|events| - 1];
      assert forall k :: 0 <= k < |front| ==> front[..k] == events[..k];
      RunKeepsCreation(w, front);
      NextKeepsCreation(Run(w, front), events[|events| - 1]);
    }
  }

  /** Over any interleaving and any crashes: at most one binding quote is asked for, the payload is
      written at most once, and every buyer ever shown instructions saw the same deposit. */
  lemma OneDeposit(w: World, events: seq<Event>)
    requires Fresh(w) && Legal(w, events)
    ensures Run(w, events).requests <= 1 && Run(w, events).writes <= 1
    ensures forall d, e :: d in Run(w, events).shown && e in Run(w, events).shown ==> d == e
  {
    RunKeepsCreation(w, events);
  }

  // ---- sending ------------------------------------------------------------------------------

  ghost predicate SendOk(w: World) {
    && w.starts == w.rejections + (if w.row.Some? && w.row.value.token.Some? then 1 else 0)
    && (w.row.Some? && w.row.value.sent.Some? ==> w.row.value.token.Some?)
    && (w.row.Some? && w.row.value.token.Some? ==>
      w.row.value.payload.Some? && w.row.value.token.value in w.granted && w.row.value.token.value !in w.released)
    && w.released <= w.granted
  }

  lemma NextKeepsSend(w: World, e: Event)
    requires SendOk(w) && Possible(w, e)
    ensures SendOk(Next(w, e))
  {
  }

  lemma {:induction false} RunKeepsSend(w: World, events: seq<Event>)
    requires Fresh(w) && Legal(w, events)
    ensures SendOk(Run(w, events))
    decreases |events|
  {
    if events != [] {
      var front := events[..|events| - 1];
      assert forall k :: 0 <= k < |front| ==> front[..k] == events[..k];
      RunKeepsSend(w, front);
      NextKeepsSend(Run(w, front), events[|events| - 1]);
    }
  }

  /** Successful starts exceed successful rejections by one exactly while the lock is held, and a
      submitted transaction implies a held lock. */
  lemma OneSendAtATime(w: World, events: seq<Event>)
    requires Fresh(w) && Legal(w, events)
    ensures var z := Run(w, events);
      && 0 <= z.starts - z.rejections <= 1
      && (z.starts - z.rejections == 1 <==> z.row.Some? && z.row.value.token.Some?)
      && (z.row.Some? && z.row.value.sent.Some? ==> z.row.value.token.Some?)
  {
    RunKeepsSend(w, events);
  }

  lemma LegalPrefix(w: World, events: seq<Event>, more: seq<Event>)
    requires Legal(w, events + more)
    ensures Legal(w, events)
  {
    assert forall k :: 0 <= k < |events| ==> (events + more)[..k] == events[..k] && (events + more)[k] == events[k];
  }

  lemma NextKeepsSubmission(w: World, e: Event)
    requires SendOk(w) && w.row.Some? && w.row.value.sent.Some?
    ensures var z := Next(w, e);
      && z.row.Some? && z.row.value.sent == w.row.value.sent && z.row.value.token == w.row.value.token
      && z.starts == w.starts && z.rejections == w.rejections
  {
  }

  /** After a submission nothing moves again: same transaction, same token, no further start or rejection. */
  lemma {:induction false} SubmissionIsFinal(w: World, events: seq<Event>, more: seq<Event>)
    requires Fresh(w) && Legal(w, events + more)
    requires Run(w, events).row.Some? && Run(w, events).row.value.sent.Some?
    ensures var y, z := Run(w, events), Run(w, events + more);
      && z.row.Some? && z.row.value.sent == y.row.value.sent && z.row.value.token == y.row.value.token
      && z.starts == y.starts && z.rejections == y.rejections
    decreases |more|
  {
    if more == [] {
      assert events + more == events;
    } else {
      var front := more[..|more| - 1];
      assert (events + more)[..|events + more| - 1] == events + front;
      LegalPrefix(w, events + front, [more[|more| - 1]]) by {
        assert events + front + [more[|more| - 1]] == events + more;
      }
      SubmissionIsFinal(w, events, front);
      RunKeepsSend(w, events + front);
      NextKeepsSubmission(Run(w, events + front), more[|more| - 1]);
    }
  }

  lemma {:induction false} ReleasedStays(w: World, events: seq<Event>, more: seq<Event>)
    ensures Run(w, events).released <= Run(w, events + more).released
    decreases |more|
  {
    if more == [] {
      assert events + more == events;
    } else {
      assert (events + more)[..|events + more| - 1] == events + more[..|more| - 1];
      ReleasedStays(w, events, more[..|more| - 1]);
    }
  }

  /** A token given back by a rejection never works again, neither to reject nor to submit. */
  lemma ReleasedTokenIsDead(w: World, events: seq<Event>, more: seq<Event>, token: string, txid: string)
    requires Fresh(w) && Legal(w, events + more) && token in Run(w, events).released
    ensures !CanReject(Run(w, events + more).row, token) && !CanSubmit(Run(w, events + more).row, token, txid)
  {
    ReleasedStays(w, events, more);
    RunKeepsSend(w, events + more);
  }
}
