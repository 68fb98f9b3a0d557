/** The agreed split of a swap fee: checked when the quote arrives, stored with the reservation,
    and rebuilt from storage when the swap is reconciled. */
module FeeTerms {
  import opened Sums

  const PROVIDER_BPS := 20

  /** The requested fee of a quote body: who gets it, how much, and whether routing is confidential. */
  datatype Body = Body(recipient: string, requested: U64, confidential: bool)

  /** One line of a provider's fee list; either part may be missing or malformed. */
  datatype Fee = Fee(recipient: Option<string>, bps: Option<U64>)

  /** Total and own share; none when the addition overflows. */
  function Terms(body: Body): Option<(U64, U64)> {
    if body.confidential then
      if body.requested + PROVIDER_BPS > U64_MAX then None else Some((body.requested + PROVIDER_BPS, body.requested))
    else Some((body.requested, body.requested / 2))
  }

  predicate WellFormed(f: Fee) {
    f.bps.Some? && f.recipient.Some? && f.recipient.value != []
  }

  function Bps(f: Fee): nat { if f.bps.Some? then f.bps.value else 0 }

  function Combined(fees: seq<Fee>): nat {
    if fees == [] then 0 else Combined(fees[..|fees| - 1]) + Bps(fees[|fees| - 1])
  }

  function Ours(fees: seq<Fee>, recipient: string): nat {
    if fees == [] then 0
    else
      var last := fees[|fees| - 1];
      Ours(fees[..|fees| - 1], recipient) + (if last.recipient == Some(recipient) then Bps(last) else 0)
  }

  /** Acceptance without machine arithmetic: every line well formed and both sums as agreed. */
  predicate Acceptable(fees: seq<Fee>, body: Body) {
    && (forall f <- fees :: WellFormed(f))
    && Terms(body).Some?
    && Combined(fees) == Terms(body).value.0
    && Ours(fees, body.recipient) == Terms(body).value.1
  }

  lemma {:induction false} CombinedGrows(fees: seq<Fee>, recipient: string, k: nat)
    requires k <= |fees|
    ensures Combined(fees[..k]) <= Combined(fees) && Ours(fees, recipient) <= Combined(fees)
    decreases |fees|
  {
    if fees != [] {
      var front := fees[..|fees| - 1];
      if k < |fees| {
        assert front[..k] == fees[..k];
        CombinedGrows(front, recipient, k);
      } else {
        assert fees[..k] == fees;
        CombinedGrows(front, recipient, 0);
      }
    }
  }

  /** The checked 64-bit accumulation accepts exactly the acceptable lists: it cannot overflow on one. */
  method ValidateQuote(fees: seq<Fee>, body: Body) returns (ok: bool)
    ensures ok <==> Acceptable(fees, body)
  {
    var total, ours: int := 0, 0;
    for k := 0 to |fees|
      invariant total == Combined(fees[..k]) <= U64_MAX && ours == Ours(fees[..k], body.recipient) <= U64_MAX
      invariant forall f <- fees[..k] :: WellFormed(f)
    {
      var fee := fees[k];
      assert fees[..k + 1][..k] == fees[..k];
      CombinedGrows(fees, body.recipient, k + 1);
      if fee.bps.None? {
        assert fee in fees;
        return false;
      }
      if total + fee.bps.value > U64_MAX {
        return false;
      }
      total := total + fee.bps.value;
      if fee.recipient.None? || fee.recipient.value == [] {
        assert fee in fees;
        return false;
      }
      if fee.recipient.value == body.recipient {
        CombinedGrows(fees[..k + 1], body.recipient, 0);
        ours := ours + fee.bps.value;
      }
    }
    assert fees[..|fees|] == fees;
    var terms := Terms(body);
    ok := terms.Some? && total == terms.value.0 && ours == terms.value.1;
  }

  // ---- storage round trip --------------------------------------------------------------------

  datatype Stored = Stored(recipient: string, total: U64, share: U64)

  /** What a reservation stores; fails when the terms do not fit a signed 64-bit column. */
  function Store(body: Body): Option<Stored> {
    if Terms(body).None? || Terms(body).value.0 > I64_MAX then None
    else Some(Stored(body.recipient, Terms(body).value.0, Terms(body).value.1))
  }

  /** The body rebuilt at reconciliation from the stored row and the quote's confidentiality. */
  function Rebuild(row: Stored, confidential: bool): Body {
    Body(row.recipient, if confidential then row.share else row.total, confidential)
  }

  /** Reconciliation accepts exactly the fee lists accepted when the quote was made, in either
      mode, and an accepted list pays out the stored total with the stored share ours. */
  lemma SameListsAccepted(body: Body, fees: seq<Fee>)
    requires Store(body).Some?
    ensures Acceptable(fees, Rebuild(Store(body).value, body.confidential)) <==> Acceptable(fees, body)
    ensures Acceptable(fees, body) ==>
      Combined(fees) == Store(body).value.total && Ours(fees, body.recipient) == Store(body).value.share
  {
    assert Terms(Rebuild(Store(body).value, body.confidential)) == Terms(body);
  }

  /** The mode must be remembered with the quote: rebuilt in the other mode, an accepted list stays
      acceptable only for the few fees both modes happen to split alike. */
  lemma ModeMatters(body: Body, fees: seq<Fee>)
    requires Store(body).Some? && Acceptable(fees, body)
    ensures Acceptable(fees, Rebuild(Store(body).value, !body.confidential))
       <==> body.requested in if body.confidential then {19, 20} else {39, 40}
  {
    CombinedGrows(fees, body.recipient, 0);
  }
}
