/** The fake payment provider and why it is an instance of the provider the machine assumes. */
module Gateway {
  import opened Rows
  import opened Machine

  /** A stand-in for the digest of a booking's idempotency key: a text no other booking has. */
  function Suffix(b: nat): (s: string)
    ensures |s| == b
  {
    seq(b, i => '0')
  }

  function FakeSession(b: nat): Session {
    Session("cs_fake_" + Suffix(b), Some("pi_fake_" + Suffix(b)), "https://checkout.example/" + Suffix(b))
  }

  function FakeRefundId(b: nat): string {
    "re_fake_" + Suffix(b)
  }

  lemma SessionsDiffer(b: nat, c: nat)
    requires b != c
    ensures FakeSession(b).checkoutId != FakeSession(c).checkoutId
    ensures FakeSession(b).paymentId != FakeSession(c).paymentId
  {
    assert |FakeSession(b).checkoutId| == 8 + b && |FakeSession(c).checkoutId| == 8 + c;
    assert |FakeSession(b).paymentId.value| == 8 + b && |FakeSession(c).paymentId.value| == 8 + c;
  }

  /** Every checkout on record is the one its key determines. */
  ghost predicate Keyed(checkouts: map<nat, Session>) {
    forall b :: b in checkouts ==> checkouts[b] == FakeSession(b)
  }

  /** What the fake provider answers is a possible answer of the machine's provider. */
  lemma FakeIsPossible(checkouts: map<nat, Session>, b: nat)
    requires Keyed(checkouts)
    ensures SessionPossible(checkouts, b, FakeSession(b))
  {
    forall k | k in checkouts && b !in checkouts
      ensures checkouts[k].checkoutId != FakeSession(b).checkoutId
    {
      SessionsDiffer(k, b);
    }
  }

  class FakePaymentGateway {
    var failCheckout: bool
    var failRefund: bool
    var checkouts: map<nat, Session>

    constructor ()
      ensures Keyed(checkouts) && checkouts == map[] && !failCheckout && !failRefund
    {
      failCheckout, failRefund, checkouts := false, false, map[];
    }

    /** Repeating a key answers the first session again and records nothing new. */
    method CreateCheckout(b: nat) returns (r: Option<Session>)
      requires Keyed(checkouts)
      modifies this`checkouts
      ensures Keyed(checkouts)
      ensures r == if failCheckout then None else Some(FakeSession(b))
      ensures checkouts == if failCheckout then old(checkouts) else old(checkouts)[b := FakeSession(b)]
      ensures b in old(checkouts) ==> checkouts == old(checkouts)
    {
      if failCheckout {
        return None;
      }
      if b in checkouts {
        return Some(checkouts[b]);
      }
      var session := FakeSession(b);
      checkouts := checkouts[b := session];
      return Some(session);
    }

    method RequestFullRefund(b: nat) returns (r: Reply)
      ensures r == if failRefund then Throws else RefundAnswer(FakeRefundId(b), Pending)
    {
      if failRefund {
        return Throws;
      }
      return RefundAnswer(FakeRefundId(b), Pending);
    }
  }
}
