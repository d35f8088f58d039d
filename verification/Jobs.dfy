/** The bounded batch jobs: what they select, what they do to the rows one by one, and how the
    operations they run alone compare with the machine that cuts them at their awaits.
  */
module Jobs {
  import opened Rows
  import opened BookingTx
  import opened Machine
  import opened Invariant
  import opened RowsKept

  /** Rows after a batch, how many of them the job counts as changed, and whether it stopped early. */
  datatype Batch = Batch(db: Db, changed: nat, stopped: bool)

  function Take(ids: seq<nat>, limit: nat): seq<nat> {
    if |ids| <= limit then ids else ids[..limit]
  }

  // --- expireDue ---

  /** The due holds in table order. */
  function Due(bookings: seq<Booking>, now: int): seq<nat> {
    if |bookings| == 0 then []
    else
      var last := |bookings| - 1;
      Due(bookings[..last], now) + if HoldDue(bookings[last], now) then [last] else []
  }

  lemma {:induction false} DueExactly(bookings: seq<Booking>, now: int)
    ensures forall b: nat :: b in Due(bookings, now) <==> b < |bookings| && HoldDue(bookings[b], now)
    ensures forall i, j :: 0 <= i < j < |Due(bookings, now)| ==> Due(bookings, now)[i] < Due(bookings, now)[j]
  {
    if |bookings| > 0 {
      DueExactly(bookings[..|bookings| - 1], now);
      var rest := Due(bookings[..|bookings| - 1], now);
      assert forall i :: 0 <= i < |rest| ==> rest[i] in rest;
    }
  }

  function ExpireAll(db: Db, now: int, ids: seq<nat>): Batch {
    if |ids| == 0 then Batch(db, 0, false)
    else
      var last := |ids| - 1;
      var before := ExpireAll(db, now, ids[..last]);
      if before.stopped then before
      else
        match ExpireTx(before.db, now, ids[last])
        case Abort(_) => before.(stopped := true)
        case Commit(db', receipt) => Batch(db', before.changed + if receipt.applied then 1 else 0, false)
  }

  lemma {:induction false} StoppedStays(db: Db, now: int, ids: seq<nat>, n: nat)
    requires n <= |ids| && ExpireAll(db, now, ids[..n]).stopped
    ensures ExpireAll(db, now, ids) == ExpireAll(db, now, ids[..n])
  {
    if n == |ids| {
      assert ids[..n] == ids;
    } else {
      assert ids[..|ids| - 1][..n] == ids[..n];
      StoppedStays(db, now, ids[..|ids| - 1], n);
    }
  }

  /** Every selected hold expires, is counted once, and nothing else among the bookings moves. */
  lemma {:induction false} ExpireAllExactly(db: Db, now: int, ids: seq<nat>)
    requires RowsOk(db)
    requires forall i :: 0 <= i < |ids| ==> ids[i] < |db.bookings| && HoldDue(db.bookings[ids[i]], now)
    requires forall i, j :: 0 <= i < j < |ids| ==> ids[i] != ids[j]
    ensures var batch := ExpireAll(db, now, ids);
      && RowsOk(batch.db) && !batch.stopped && batch.changed == |ids|
      && |batch.db.bookings| == |db.bookings|
      && forall b :: 0 <= b < |db.bookings| ==>
           batch.db.bookings[b] ==
             if b in ids then ReleasedRow(db.bookings[b], Expired, now) else db.bookings[b]
  {
    hide RowsOk;
    if |ids| > 0 {
      var last := |ids| - 1;
      var before := ExpireAll(db, now, ids[..last]);
      ExpireAllExactly(db, now, ids[..last]);
      assert ids[last] !in ids[..last];
      assert before.db.bookings[ids[last]] == db.bookings[ids[last]];
      DueExpires(before.db, now, ids[last]);
      assert ids == ids[..last] + [ids[last]];
    }
  }

  lemma DueExpires(db: Db, now: int, b: nat)
    requires RowsOk(db) && b < |db.bookings| && HoldDue(db.bookings[b], now)
    ensures var tx := ExpireTx(db, now, b);
      && tx.Commit? && tx.value.applied && RowsOk(tx.db)
      && tx.db.bookings == db.bookings[b := ReleasedRow(db.bookings[b], Expired, now)]
  {
    assert PhaseOk(db.bookings[b]);
    ReleaseCommits(db, b, Expired, now);
    ExpireKeeps(db, now, b);
  }

  /** In a good state the job changes everything it inspected, and with room in the batch no due hold
      is left.
    */
  lemma ExpireDueDrains(db: Db, now: int, limit: nat)
    requires RowsOk(db)
    ensures var ids := Take(Due(db.bookings, now), limit); var batch := ExpireAll(db, now, ids);
      && batch.changed == |ids| == (if |Due(db.bookings, now)| <= limit then |Due(db.bookings, now)| else limit)
      && (|Due(db.bookings, now)| <= limit ==> Due(batch.db.bookings, now) == [])
  {
    hide RowsOk;
    var ids := Take(Due(db.bookings, now), limit);
    DueExactly(db.bookings, now);
    assert forall i :: 0 <= i < |ids| ==> ids[i] in Due(db.bookings, now);
    ExpireAllExactly(db, now, ids);
    var after := ExpireAll(db, now, ids).db.bookings;
    DueExactly(after, now);
    if |Due(db.bookings, now)| <= limit {
      assert Due(after, now) == [] by {
        if Due(after, now) != [] {
          assert Due(after, now)[0] in Due(after, now);
        }
      }
    }
  }

  // --- openCheckout, uninterrupted ---

  /** The rows after openCheckout when nothing comes in between, given the provider's answer. */
  function OpenCheckoutRows(db: Db, user: nat, b: nat, answer: Option<Session>): Db {
    if b >= |db.bookings| || db.bookings[b].user != user || db.bookings[b].totalCents == 0
       || b !in db.payments
       || (db.payments[b].status == CheckoutOpen && db.payments[b].checkoutUrl.Some?)
       || answer.None? || OpenedClashes(db.payments, b, answer.value)
    then db
    else SetPayment(db, b, OpenedPayment(db.payments[b], answer.value))
  }

  function OpenCheckoutSteps(user: nat, b: nat, session: Session): seq<Step> {
    [Advance(CheckoutOwned(user, b), Done), Advance(CheckoutLoad(b), Done),
     Advance(CheckoutCall(b), Opened(session)), Advance(CheckoutWrite(b, session), Done)]
  }

  /** Run alone, the four awaits of openCheckout amount to one write of the payment row. */
  lemma OpenCheckoutAlone(w: World, user: nat, b: nat, session: Session)
    requires w.flights == multiset{CheckoutOwned(user, b)} && SessionPossible(w.sessions, b, session)
    ensures Run(w, OpenCheckoutSteps(user, b, session)).db == OpenCheckoutRows(w.db, user, b, Some(session))
  {
    var steps := OpenCheckoutSteps(user, b, session);
    RunFour(w, steps);
    OpenCheckoutStarts(w, user, b);
    var w2 := Apply(Apply(w, steps[0]), steps[1]);
    OpenCheckoutEnds(w2, b, session);
  }

  lemma OpenCheckoutStarts(w: World, user: nat, b: nat)
    requires w.flights == multiset{CheckoutOwned(user, b)}
    ensures var w2 := Apply(Apply(w, Advance(CheckoutOwned(user, b), Done)), Advance(CheckoutLoad(b), Done));
      && w2 == w.(flights := w2.flights)
      && w2.flights == if b < |w.db.bookings| && w.db.bookings[b].user == user
                          && w.db.bookings[b].totalCents != 0 && b in w.db.payments
                          && !(w.db.payments[b].status == CheckoutOpen && w.db.payments[b].checkoutUrl.Some?)
                       then multiset{CheckoutCall(b)} else multiset{}
  {
    hide Apply;
    var w1 := Apply(w, Advance(CheckoutOwned(user, b), Done));
    CheckoutOwnedGoesOn(w, user, b);
    if w1.flights == multiset{} {
      NotInFlight(w1, CheckoutLoad(b), Done);
    } else {
      CheckoutLoadGoesOn(w1, b);
    }
  }

  lemma CheckoutOwnedGoesOn(w: World, user: nat, b: nat)
    requires w.flights == multiset{CheckoutOwned(user, b)}
    ensures var w' := Apply(w, Advance(CheckoutOwned(user, b), Done));
      && w' == w.(flights := w'.flights)
      && w'.flights == if b < |w.db.bookings| && w.db.bookings[b].user == user && w.db.bookings[b].totalCents != 0
                       then multiset{CheckoutLoad(b)} else multiset{}
  {
  }

  lemma CheckoutLoadGoesOn(w: World, b: nat)
    requires w.flights == multiset{CheckoutLoad(b)}
    ensures var w' := Apply(w, Advance(CheckoutLoad(b), Done));
      && w' == w.(flights := w'.flights)
      && w'.flights == if b in w.db.payments
                          && !(w.db.payments[b].status == CheckoutOpen && w.db.payments[b].checkoutUrl.Some?)
                       then multiset{CheckoutCall(b)} else multiset{}
  {
  }

  lemma OpenCheckoutEnds(w: World, b: nat, session: Session)
    requires w.flights == multiset{CheckoutCall(b)} || w.flights == multiset{}
    requires SessionPossible(w.sessions, b, session)
    requires CheckoutCall(b) in w.flights ==> b in w.db.payments
    ensures var w2 := Apply(Apply(w, Advance(CheckoutCall(b), Opened(session))),
                            Advance(CheckoutWrite(b, session), Done));
      w2.db == if CheckoutCall(b) in w.flights && !OpenedClashes(w.db.payments, b, session)
               then SetPayment(w.db, b, OpenedPayment(w.db.payments[b], session)) else w.db
  {
  }

  // --- recoverCheckouts ---

  predicate OpenCheckoutThrows(db: Db, user: nat, b: nat, answer: Option<Session>) {
    || b >= |db.bookings| || db.bookings[b].user != user
    || (db.bookings[b].totalCents != 0
        && (b !in db.payments
            || (!(db.payments[b].status == CheckoutOpen && db.payments[b].checkoutUrl.Some?)
                && (answer.None? || OpenedClashes(db.payments, b, answer.value)))))
  }

  function Recoverables(db: Db, now: int, upTo: nat): seq<nat>
    requires upTo <= |db.bookings|
  {
    if upTo == 0 then []
    else Recoverables(db, now, upTo - 1) + if Recoverable(db, now, upTo - 1) then [upTo - 1] else []
  }

  lemma {:induction false} RecoverablesExist(db: Db, now: int, upTo: nat)
    requires upTo <= |db.bookings|
    ensures forall b: nat :: b in Recoverables(db, now, upTo) <==> b < upTo && Recoverable(db, now, b)
    ensures forall i :: 0 <= i < |Recoverables(db, now, upTo)| ==> Recoverables(db, now, upTo)[i] < upTo
  {
    if upTo > 0 {
      RecoverablesExist(db, now, upTo - 1);
    }
  }

  /** `answer` is what the provider answers for each booking; a failed attempt is kept for later. */
  function RecoverAll(db: Db, ids: seq<nat>, answer: nat -> Option<Session>): Batch
    requires forall i :: 0 <= i < |ids| ==> ids[i] < |db.bookings|
    ensures RecoverAll(db, ids, answer).db.bookings == db.bookings
  {
    if |ids| == 0 then Batch(db, 0, false)
    else
      var before := RecoverAll(db, ids[..|ids| - 1], answer);
      var b := ids[|ids| - 1];
      var user := db.bookings[b].user;
      Batch(OpenCheckoutRows(before.db, user, b, answer(b)),
            before.changed + if OpenCheckoutThrows(before.db, user, b, answer(b)) then 0 else 1,
            false)
  }

  // --- refund, uninterrupted ---

  function RefundFailedRows(db: Db, b: nat): Db
    requires b in db.payments
  {
    var db1 := SetPayment(db, b, db.payments[b].(status := RefundFailed));
    if b < |db.bookings|
    then db1.(bookings := db.bookings[b := db.bookings[b].(status := CancellationFailed)]) else db1
  }

  /** The rows after refund when nothing comes in between, given the provider's answer. */
  function RefundRows(db: Db, now: int, b: nat, answer: Reply): Db {
    if b !in db.payments || db.payments[b].paymentId.None? then db
    else if !answer.RefundAnswer? || RefundIdTaken(db.payments, b, answer.refundId) then RefundFailedRows(db, b)
    else
      var amount := db.payments[b].amountCents;
      var db1 := SetPayment(db, b, RefundedPayment(db.payments[b], answer.refundId, answer.outcome));
      if !answer.outcome.Succeeded? then db1
      else
        match FinalizeTx(db1, now, b, answer.refundId, amount)
        case Commit(db2, _) => db2
        case Abort(_) => RefundFailedRows(db1, b)
  }

  /** The awaits of a refund; without a provider payment there is only the first. */
  function RefundSteps(payments: map<nat, Payment>, b: nat, answer: Reply): seq<Step> {
    if b !in payments || payments[b].paymentId.None? then [Advance(RefundLoad(b), Done)]
    else
      var amount := payments[b].amountCents;
      var refundId := if answer.RefundAnswer? then answer.refundId else "";
      var outcome := if answer.RefundAnswer? then answer.outcome else Failed;
      [Advance(RefundLoad(b), Done), Advance(RefundCall(b, payments[b].paymentId.value, amount), answer),
       Advance(RefundWrite(b, refundId, outcome, amount), Done),
       Advance(Finalize(b, refundId, amount, FromRefund), Done),
       Advance(FailPayment(b), Done), Advance(FailBooking(b), Done)]
  }

  /** The await a refund is suspended at after the provider's answer and after the write it leads to. */
  lemma RefundAsks(w: World, b: nat, answer: Reply)
    requires w.flights == multiset{RefundLoad(b)}
    requires b in w.db.payments && w.db.payments[b].paymentId.Some?
    ensures var steps := RefundSteps(w.db.payments, b, answer);
      var w2 := Apply(Apply(w, steps[0]), steps[1]);
      && w2 == w.(flights := w2.flights, refunds := w2.refunds)
      && w2.flights == if answer.RefundAnswer?
                       then multiset{RefundWrite(b, answer.refundId, answer.outcome, w.db.payments[b].amountCents)}
                       else multiset{FailPayment(b)}
  {
  }

  lemma RefundEnds(w: World, b: nat)
    requires b in w.db.payments && (w.flights == multiset{FailPayment(b)} || w.flights == multiset{})
    ensures Apply(Apply(w, Advance(FailPayment(b), Done)), Advance(FailBooking(b), Done)).db ==
      if FailPayment(b) in w.flights then RefundFailedRows(w.db, b) else w.db
  {
    hide Apply;
    var w1 := Apply(w, Advance(FailPayment(b), Done));
    if FailPayment(b) in w.flights {
      FailPaymentWrites(w, b);
      FailBookingWrites(w1, b);
    } else {
      NotInFlight(w, FailPayment(b), Done);
      NotInFlight(w, FailBooking(b), Done);
    }
  }

  lemma FailPaymentWrites(w: World, b: nat)
    requires b in w.db.payments && w.flights == multiset{FailPayment(b)}
    ensures Apply(w, Advance(FailPayment(b), Done)) ==
      w.(db := SetPayment(w.db, b, w.db.payments[b].(status := RefundFailed)), flights := multiset{FailBooking(b)})
  {
  }

  lemma FailBookingWrites(w: World, b: nat)
    requires w.flights == multiset{FailBooking(b)}
    ensures Apply(w, Advance(FailBooking(b), Done)).db ==
      if b < |w.db.bookings|
      then w.db.(bookings := w.db.bookings[b := w.db.bookings[b].(status := CancellationFailed)]) else w.db
  {
  }

  lemma RefundFinalizes(w: World, b: nat, refundId: string, amount: int)
    requires b in w.db.payments
    requires w.flights == multiset{Finalize(b, refundId, amount, FromRefund)}
          || w.flights == multiset{FailPayment(b)} || w.flights == multiset{}
    ensures var w' := Apply(w, Advance(Finalize(b, refundId, amount, FromRefund), Done));
      var tx := FinalizeTx(w.db, w.now, b, refundId, amount);
      && b in w'.db.payments
      && if Finalize(b, refundId, amount, FromRefund) !in w.flights then w' == w
         else if tx.Commit? then w'.db == tx.db && w'.flights == multiset{}
         else w'.db == w.db && w'.flights == multiset{FailPayment(b)}
  {
  }

  lemma RefundWrites(w: World, b: nat, refundId: string, outcome: RefundOutcome, amount: int)
    requires b in w.db.payments && w.flights == multiset{RefundWrite(b, refundId, outcome, amount)}
    ensures var w' := Apply(w, Advance(RefundWrite(b, refundId, outcome, amount), Done));
      if RefundIdTaken(w.db.payments, b, refundId) then w' == w.(flights := multiset{FailPayment(b)})
      else w' == w.(db := SetPayment(w.db, b, RefundedPayment(w.db.payments[b], refundId, outcome)),
                    flights := if outcome.Succeeded? then multiset{Finalize(b, refundId, amount, FromRefund)}
                               else multiset{})
  {
  }

  lemma NotInFlight(w: World, f: Flight, reply: Reply)
    requires f !in w.flights
    ensures Apply(w, Advance(f, reply)) == w
  {
  }

  /** Run alone, the awaits of refund amount to RefundRows, whatever the provider answers. */
  lemma RefundAlone(w: World, b: nat, answer: Reply)
    requires w.flights == multiset{RefundLoad(b)}
    ensures Run(w, RefundSteps(w.db.payments, b, answer)).db == RefundRows(w.db, w.now, b, answer)
  {
    hide Apply;
    if b !in w.db.payments || w.db.payments[b].paymentId.None? {
      RefundStops(w, b);
      RunOn(w, [Advance(RefundLoad(b), Done)]);
      assert [Advance(RefundLoad(b), Done)][1..] == [];
    } else {
      RefundCalls(w, b, answer);
    }
  }

  lemma RefundStops(w: World, b: nat)
    requires b !in w.db.payments || w.db.payments[b].paymentId.None?
    ensures Apply(w, Advance(RefundLoad(b), Done)).db == w.db
  {
  }

  lemma RefundCalls(w: World, b: nat, answer: Reply)
    requires w.flights == multiset{RefundLoad(b)}
    requires b in w.db.payments && w.db.payments[b].paymentId.Some?
    ensures Run(w, RefundSteps(w.db.payments, b, answer)).db == RefundRows(w.db, w.now, b, answer)
  {
    hide Apply, RefundFailedRows;
    var amount := w.db.payments[b].amountCents;
    var steps := RefundSteps(w.db.payments, b, answer);
    var w1 := Apply(w, steps[0]);
    var w2 := Apply(w1, steps[1]);
    RefundAsks(w, b, answer);
    var w3 := Apply(w2, steps[2]);
    if answer.RefundAnswer? {
      RefundWrites(w2, b, answer.refundId, answer.outcome, amount);
    } else {
      NotInFlight(w2, steps[2].flight, Done);
    }
    var w4 := Apply(w3, steps[3]);
    RefundFinalizes(w3, b, steps[3].flight.refundId, amount);
    RefundEnds(w4, b);
    RunSix(w, steps);
  }

  lemma RunSix(w: World, steps: seq<Step>)
    requires |steps| == 6
    ensures Run(w, steps) ==
      Apply(Apply(Apply(Apply(Apply(Apply(w, steps[0]), steps[1]), steps[2]), steps[3]), steps[4]), steps[5])
  {
    hide Apply;
    RunOn(w, steps);
    RunOn(Apply(w, steps[0]), steps[1..]);
    assert steps[1..][1..] == steps[2..];
    RunFour(Apply(Apply(w, steps[0]), steps[1]), steps[2..]);
  }

  /** An open cancellation of a booking that was paid always has the provider's payment to refund, so
      refund never returns early for it.
    */
  lemma RefundHasPayment(db: Db, b: nat)
    requires RowsOk(db) && b < |db.bookings| && RefundOpen(db.bookings[b].status)
    ensures db.bookings[b].totalCents > 0
    ensures b in db.payments && db.payments[b].paymentId.Some?
    ensures db.payments[b].amountCents == db.bookings[b].totalCents
  {
    assert PhaseOk(db.bookings[b]);
  }

  /** Finalizing an open cancellation for its full amount commits: it is cancelled, unless its seats are
      already back, and its payment refunded.
    */
  lemma FinalizeGrants(db: Db, now: int, b: nat, refundId: string)
    requires RowsOk(db) && b < |db.bookings| && RefundOpen(db.bookings[b].status)
    requires !RefundIdTaken(db.payments, b, refundId)
    ensures b in db.payments
    ensures var row := db.bookings[b]; var tx := FinalizeTx(db, now, b, refundId, row.totalCents);
      && tx.Commit?
      && tx.db.bookings == db.bookings[b := if row.releasedAt.None? then ReleasedRow(row, Cancelled, now) else row]
      && tx.db.payments == db.payments[b := db.payments[b].(status := Refunded, refundId := Some(refundId))]
  {
    RefundHasPayment(db, b);
    ReleaseCommits(db, b, Cancelled, now);
    hide RowsOk;
  }

  /** The provider answered with a refund id no other payment carries. */
  predicate RefundTaken(payments: map<nat, Payment>, b: nat, answer: Reply) {
    answer.RefundAnswer? && !RefundIdTaken(payments, b, answer.refundId)
  }

  /** What an uninterrupted refund makes of the booking's row. */
  function RefundedRow(row: Booking, now: int, taken: bool, answer: Reply): Booking {
    if !taken then row.(status := CancellationFailed)
    else if answer.RefundAnswer? && answer.outcome.Succeeded? && row.releasedAt.None?
    then ReleasedRow(row, Cancelled, now) else row
  }

  /** Alone, a refund the provider grants at once ends in `cancelled` with the seats back; one it
      refuses ends in `cancellation_failed` with the seats kept; and either way no other booking and no
      other payment moves.
    */
  lemma RefundSettles(db: Db, now: int, b: nat, answer: Reply)
    requires RowsOk(db) && b < |db.bookings| && RefundOpen(db.bookings[b].status)
    ensures var db' := RefundRows(db, now, b, answer); var taken := RefundTaken(db.payments, b, answer);
      && b in db.payments && b in db'.payments
      && db'.bookings == db.bookings[b := RefundedRow(db.bookings[b], now, taken, answer)]
      && db'.payments == db.payments[b := db'.payments[b]]
      && db'.payments[b] == (if taken then RefundedPayment(db.payments[b], answer.refundId, answer.outcome)
                             else db.payments[b].(status := RefundFailed))
  {
    hide RowsOk, FinalizeTx;
    RefundHasPayment(db, b);
    if RefundTaken(db.payments, b, answer) && answer.outcome.Succeeded? {
      var payment := RefundedPayment(db.payments[b], answer.refundId, answer.outcome);
      PaymentKeeps(db, b, payment);
      assert forall p :: p in db.payments && p != b ==> SetPayment(db, b, payment).payments[p] == db.payments[p];
      FinalizeGrants(SetPayment(db, b, payment), now, b, answer.refundId);
    }
  }

  // --- reconcileRefunds ---

  datatype Selected = Selected(booking: nat, refundId: Option<string>)

  function Unsettled(db: Db, upTo: nat): seq<Selected>
    requires upTo <= |db.bookings|
  {
    if upTo == 0 then []
    else
      Unsettled(db, upTo - 1)
      + if Unresolved(db, upTo - 1) then [Selected(upTo - 1, db.payments[upTo - 1].refundId)] else []
  }

  function TakeSelected(rows: seq<Selected>, limit: nat): seq<Selected> {
    if |rows| <= limit then rows else rows[..limit]
  }

  datatype Settled = Settled(db: Db, changed: bool)

  /** One round of the loop: a refund never requested is requested, a requested one is inspected. */
  function ReconcileOne(db: Db, now: int, row: Selected, answer: Reply): Settled {
    if row.refundId.None? then Settled(RefundRows(db, now, row.booking, answer), false)
    else if !answer.Inspection? then Settled(db, false)
    else
      match answer.outcome
      case Pending => Settled(db, false)
      case Failed =>
        Settled(if row.booking in db.payments
                then SetPayment(db, row.booking, db.payments[row.booking].(status := RefundFailed)) else db,
                false)
      case Succeeded =>
        match FinalizeTx(db, now, row.booking, row.refundId.value, answer.amountCents)
        case Commit(db', _) => Settled(db', true)
        case Abort(_) => Settled(db, false)
  }

  function ReconcileAll(db: Db, now: int, rows: seq<Selected>, answer: Selected -> Reply): Batch {
    if |rows| == 0 then Batch(db, 0, false)
    else
      var row := rows[|rows| - 1];
      var before := ReconcileAll(db, now, rows[..|rows| - 1], answer);
      var settled := ReconcileOne(before.db, now, row, answer(row));
      Batch(settled.db, before.changed + if settled.changed then 1 else 0, false)
  }
}
