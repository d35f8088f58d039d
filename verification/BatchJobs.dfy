/** What the checkout recovery and the refund reconciliation make of the rows they select. */
module BatchJobs {
  import opened Rows
  import opened Seats
  import opened BookingTx
  import opened Machine
  import opened Invariant
  import opened RowsKept
  import opened Safety
  import opened Jobs

  // --- the reconciler's selection ---

  lemma {:induction false} UnsettledMembers(db: Db, upTo: nat, row: Selected)
    requires upTo <= |db.bookings|
    ensures row in Unsettled(db, upTo)
       <==> row.booking < upTo && Unresolved(db, row.booking) && row.refundId == db.payments[row.booking].refundId
  {
    hide Unresolved;
    if upTo > 0 {
      UnsettledMembers(db, upTo - 1, row);
      UnresolvedHasPayment(db, upTo - 1);
    }
  }

  lemma UnresolvedHasPayment(db: Db, b: nat)
    ensures Unresolved(db, b) ==> b < |db.bookings| && b in db.payments && RefundOpen(db.bookings[b].status)
  {
  }

  /** The query lists exactly the unresolved refunds, each booking once, in table order. */
  lemma {:induction false} UnsettledExactly(db: Db, upTo: nat)
    requires upTo <= |db.bookings|
    ensures forall row :: row in Unsettled(db, upTo)
              <==> row.booking < upTo && Unresolved(db, row.booking)
                   && row.refundId == db.payments[row.booking].refundId
    ensures forall i, j :: 0 <= i < j < |Unsettled(db, upTo)| ==>
              Unsettled(db, upTo)[i].booking < Unsettled(db, upTo)[j].booking
  {
    forall row
      ensures row in Unsettled(db, upTo)
         <==> row.booking < upTo && Unresolved(db, row.booking) && row.refundId == db.payments[row.booking].refundId
    {
      UnsettledMembers(db, upTo, row);
    }
    if upTo > 0 {
      UnsettledExactly(db, upTo - 1);
      var front := Unsettled(db, upTo - 1);
      assert forall i :: 0 <= i < |front| ==> front[i] in front;
      hide Unresolved;
    }
  }

  /** Distinct bookings that wait for their refund, each with the refund id its payment carries. */
  ghost predicate Selection(db: Db, rows: seq<Selected>) {
    && (forall i :: 0 <= i < |rows| ==>
          Unresolved(db, rows[i].booking) && rows[i].refundId == db.payments[rows[i].booking].refundId)
    && (forall i, j :: 0 <= i < j < |rows| ==> rows[i].booking != rows[j].booking)
  }

  lemma SelectedIsSelection(db: Db, limit: nat)
    ensures Selection(db, TakeSelected(Unsettled(db, |db.bookings|), limit))
  {
    var all := Unsettled(db, |db.bookings|);
    UnsettledExactly(db, |db.bookings|);
    hide Unsettled, Unresolved;
    forall i | 0 <= i < |all|
      ensures Unresolved(db, all[i].booking) && all[i].refundId == db.payments[all[i].booking].refundId
    {
      assert all[i] in all;
    }
  }

  // --- one row ---

  /** The unique index on provider refund ids. */
  ghost predicate RefundIdsApart(payments: map<nat, Payment>) {
    forall p, q :: p in payments && q in payments && p != q && payments[p].refundId.Some? ==>
      payments[q].refundId != payments[p].refundId
  }

  /** The inspection of a requested refund reports it granted in full. */
  predicate Granted(row: Selected, answer: Reply, total: int) {
    row.refundId.Some? && answer.Inspection? && answer.outcome.Succeeded? && answer.amountCents == total
  }

  /** What a round makes of the booking's row. */
  function ReconciledRow(row: Booking, now: int, selected: Selected, taken: bool, answer: Reply): Booking {
    if selected.refundId.None? then RefundedRow(row, now, taken, answer)
    else if Granted(selected, answer, row.totalCents) && row.releasedAt.None?
    then ReleasedRow(row, Cancelled, now) else row
  }

  lemma RefundFailedKeeps(db: Db, b: nat)
    requires RowsOk(db) && b < |db.bookings| && RefundOpen(db.bookings[b].status)
    ensures b in db.payments && RowsOk(RefundFailedRows(db, b))
  {
    hide SeatsOk, SnapshotsOk;
    RefundHasPayment(db, b);
    var payment := db.payments[b].(status := RefundFailed);
    PaymentKeeps(db, b, payment);
    StatusKeeps(SetPayment(db, b, payment), b, db.bookings[b].(status := CancellationFailed));
  }

  lemma RefundRowsKeeps(db: Db, now: int, b: nat, answer: Reply)
    requires RowsOk(db) && b < |db.bookings| && RefundOpen(db.bookings[b].status)
    ensures RowsOk(RefundRows(db, now, b, answer))
  {
    hide RowsOk, FinalizeTx;
    RefundHasPayment(db, b);
    RefundFailedKeeps(db, b);
    if RefundTaken(db.payments, b, answer) {
      var payment := RefundedPayment(db.payments[b], answer.refundId, answer.outcome);
      var db1 := SetPayment(db, b, payment);
      PaymentKeeps(db, b, payment);
      if answer.outcome.Succeeded? {
        assert forall p :: p in db.payments && p != b ==> db1.payments[p] == db.payments[p];
        FinalizeGrants(db1, now, b, answer.refundId);
        FinalizeKeeps(db1, now, b, answer.refundId, db.payments[b].amountCents);
      }
    }
  }

  lemma ApartKept(payments: map<nat, Payment>, b: nat, payment: Payment)
    requires RefundIdsApart(payments) && b in payments
    requires payment.refundId.Some? ==>
               payment.refundId == payments[b].refundId || !RefundIdTaken(payments, b, payment.refundId.value)
    ensures RefundIdsApart(payments[b := payment])
  {
  }

  lemma OwnIdFree(payments: map<nat, Payment>, b: nat)
    requires RefundIdsApart(payments) && b in payments && payments[b].refundId.Some?
    ensures !RefundIdTaken(payments, b, payments[b].refundId.value)
  {
  }

  /** What a round leaves: one booking and its payment moved, as specified, and counted if it was settled. */
  ghost predicate Reconciled(db: Db, now: int, row: Selected, answer: Reply, s: Settled)
    requires row.booking < |db.bookings|
  {
    var b := row.booking;
    && s.db.bookings == db.bookings[b := ReconciledRow(db.bookings[b], now, row, RefundTaken(db.payments, b, answer),
                                                       answer)]
    && b in db.payments && b in s.db.payments && s.db.payments == db.payments[b := s.db.payments[b]]
    && (s.changed <==> Granted(row, answer, db.bookings[b].totalCents))
    && (row.refundId.Some? ==> (s.changed <==> s.db.payments[b].status == Refunded))
  }

  lemma RequestRound(db: Db, now: int, row: Selected, answer: Reply)
    requires RowsOk(db) && RefundIdsApart(db.payments)
    requires row.booking < |db.bookings| && RefundOpen(db.bookings[row.booking].status) && row.refundId.None?
    ensures var s := ReconcileOne(db, now, row, answer);
      Reconciled(db, now, row, answer, s) && RowsOk(s.db) && RefundIdsApart(s.db.payments)
  {
    hide RowsOk, RefundRows;
    var b, s := row.booking, ReconcileOne(db, now, row, answer);
    RefundSettles(db, now, b, answer);
    RefundRowsKeeps(db, now, b, answer);
    ApartKept(db.payments, b, s.db.payments[b]);
  }

  lemma InspectRound(db: Db, now: int, row: Selected, answer: Reply)
    requires RowsOk(db) && RefundIdsApart(db.payments)
    requires Unresolved(db, row.booking)
    requires row.refundId.Some? && row.refundId == db.payments[row.booking].refundId
    ensures var s := ReconcileOne(db, now, row, answer);
      Reconciled(db, now, row, answer, s) && RowsOk(s.db) && RefundIdsApart(s.db.payments)
  {
    hide RowsOk, FinalizeTx;
    var b, s := row.booking, ReconcileOne(db, now, row, answer);
    RefundHasPayment(db, b);
    OwnIdFree(db.payments, b);
    if Granted(row, answer, db.bookings[b].totalCents) {
      FinalizeGrants(db, now, b, row.refundId.value);
      FinalizeKeeps(db, now, b, row.refundId.value, answer.amountCents);
    } else if answer.Inspection? && answer.outcome.Succeeded? {
      WrongAmountAborts(db, now, b, row.refundId.value, answer.amountCents);
    } else {
      PaymentKeeps(db, b, db.payments[b].(status := RefundFailed));
      assert db.bookings[b := db.bookings[b]] == db.bookings;
      assert db.payments[b := db.payments[b]] == db.payments;
    }
    ApartKept(db.payments, b, s.db.payments[b]);
  }

  lemma WrongAmountAborts(db: Db, now: int, b: nat, refundId: string, amount: int)
    requires b < |db.bookings| && b in db.payments && db.bookings[b].status != Cancelled
    requires amount != db.bookings[b].totalCents
    ensures FinalizeTx(db, now, b, refundId, amount).Abort?
  {
  }

  // --- the whole batch ---

  predicate Chosen(rows: seq<Selected>, c: nat) {
    exists i :: 0 <= i < |rows| && rows[i].booking == c
  }

  /** Selected bookings whose inspection reports the full refund. */
  function GrantedCount(db: Db, rows: seq<Selected>, answer: Selected -> Reply): nat {
    if |rows| == 0 then 0
    else
      var row := rows[|rows| - 1];
      GrantedCount(db, rows[..|rows| - 1], answer)
      + if row.booking < |db.bookings| && Granted(row, answer(row), db.bookings[row.booking].totalCents) then 1 else 0
  }

  /** Booking `c` and its payment are as they were. */
  predicate Same(db: Db, db': Db, c: nat) {
    && |db'.bookings| == |db.bookings|
    && (c < |db.bookings| ==> db'.bookings[c] == db.bookings[c])
    && (c in db.payments <==> c in db'.payments)
    && (c in db.payments ==> db'.payments[c] == db.payments[c])
  }

  lemma RoundIs(db: Db, now: int, row: Selected, answer: Reply)
    requires RowsOk(db) && RefundIdsApart(db.payments)
    requires Unresolved(db, row.booking) && row.refundId == db.payments[row.booking].refundId
    ensures var s := ReconcileOne(db, now, row, answer);
      && Reconciled(db, now, row, answer, s) && RowsOk(s.db) && RefundIdsApart(s.db.payments)
      && forall c: nat :: c != row.booking ==> Same(db, s.db, c)
  {
    hide RowsOk, ReconcileOne, RefundIdsApart;
    if row.refundId.None? {
      RequestRound(db, now, row, answer);
    } else {
      InspectRound(db, now, row, answer);
    }
  }

  lemma SameUnresolved(db: Db, db': Db, b: nat)
    requires Same(db, db', b) && Unresolved(db, b)
    ensures Unresolved(db', b) && db'.payments[b] == db.payments[b] && db'.bookings[b] == db.bookings[b]
  {
  }

  lemma FrontSelection(db: Db, rows: seq<Selected>)
    requires Selection(db, rows) && |rows| > 0
    ensures var front, last := rows[..|rows| - 1], rows[|rows| - 1];
      && Selection(db, front) && !Chosen(front, last.booking)
      && Unresolved(db, last.booking) && last.refundId == db.payments[last.booking].refundId
      && forall c :: Chosen(rows, c) <==> Chosen(front, c) || c == last.booking
  {
    var n := |rows| - 1;
    assert rows == rows[..n] + [rows[n]];
    forall c ensures Chosen(rows, c) <==> Chosen(rows[..n], c) || c == rows[n].booking {
      if Chosen(rows[..n], c) {
        var i :| 0 <= i < n && rows[..n][i].booking == c;
        assert rows[i].booking == c;
      }
      if Chosen(rows, c) {
        var i :| 0 <= i <= n && rows[i].booking == c;
        assert i < n ==> rows[..n][i].booking == c;
      }
    }
  }

  /** The batch keeps the row invariant, moves only the selected bookings, and counts exactly those whose
      inspection reports the full refund.
    */
  lemma {:induction false} ReconcileAllKeeps(db: Db, now: int, rows: seq<Selected>, answer: Selected -> Reply)
    requires RowsOk(db) && RefundIdsApart(db.payments) && Selection(db, rows)
    ensures var batch := ReconcileAll(db, now, rows, answer);
      && RowsOk(batch.db) && RefundIdsApart(batch.db.payments)
      && batch.changed == GrantedCount(db, rows, answer)
      && forall c :: !Chosen(rows, c) ==> Same(db, batch.db, c)
  {
    hide RowsOk, RefundIdsApart, Selection, Unresolved, ReconcileOne, Granted, ReconciledRow;
    if |rows| > 0 {
      var front, last := rows[..|rows| - 1], rows[|rows| - 1];
      var before := ReconcileAll(db, now, front, answer);
      FrontSelection(db, rows);
      hide Chosen;
      ReconcileAllKeeps(db, now, front, answer);
      SameUnresolved(db, before.db, last.booking);
      RoundIs(before.db, now, last, answer(last));
      UnresolvedHasPayment(db, last.booking);
    }
  }

  /** What the batch makes of a selected booking: one whose inspection reports the full refund is refunded
      and, unless its seats are already back, cancelled and released; one never requested is requested; any
      other stays.
    */
  lemma {:induction false} ReconcileAllSettles(db: Db, now: int, rows: seq<Selected>, answer: Selected -> Reply, i: nat)
    requires RowsOk(db) && RefundIdsApart(db.payments) && Selection(db, rows) && i < |rows|
    ensures var batch := ReconcileAll(db, now, rows, answer); var row, b := rows[i], rows[i].booking;
      var taken := RefundTaken(ReconcileAll(db, now, rows[..i], answer).db.payments, b, answer(row));
      && b < |db.bookings| == |batch.db.bookings| && b in batch.db.payments
      && batch.db.bookings[b] == ReconciledRow(db.bookings[b], now, row, taken, answer(row))
      && (row.refundId.Some? ==>
            (batch.db.payments[b].status == Refunded <==> Granted(row, answer(row), db.bookings[b].totalCents)))
  {
    hide RowsOk, RefundIdsApart, Unresolved, ReconcileOne, Granted, ReconciledRow, RefundTaken;
    var n := |rows| - 1;
    var front, last := rows[..n], rows[n];
    var before := ReconcileAll(db, now, front, answer);
    UnresolvedHasPayment(db, last.booking);
    FrontSelection(db, rows);
    ReconcileAllKeeps(db, now, front, answer);
    SameUnresolved(db, before.db, last.booking);
    RoundIs(before.db, now, last, answer(last));
    if i < n {
      assert front[..i] == rows[..i];
      assert rows[i].booking != last.booking;
      hide Selection, Chosen;
      ReconcileAllSettles(db, now, front, answer, i);
    }
  }

  // --- on every run ---

  lemma AdvanceKeepsApart(w: World, f: Flight, reply: Reply)
    requires RefundIdsApart(w.db.payments)
    ensures RefundIdsApart(ApplyAdvance(w, f, reply).db.payments)
  {
    hide Release, RefundIdsApart;
    if f.RefundWrite? && f.booking in w.db.payments && !RefundIdTaken(w.db.payments, f.booking, f.refundId) {
      ApartKept(w.db.payments, f.booking, RefundedPayment(w.db.payments[f.booking], f.refundId, f.outcome));
    } else if f.Finalize? {
      FinalizeKeepsApart(w.db, w.now, f.booking, f.refundId, f.amountCents);
      hide FinalizeTx;
    } else if f.booking in w.db.payments {
      ApartKept(w.db.payments, f.booking, w.db.payments[f.booking].(status := RefundFailed));
      if f.CheckoutWrite? {
        ApartKept(w.db.payments, f.booking, OpenedPayment(w.db.payments[f.booking], f.session));
      }
    }
  }

  lemma FinalizeKeepsApart(db: Db, now: int, b: nat, refundId: string, amount: int)
    requires RefundIdsApart(db.payments)
    ensures var tx := FinalizeTx(db, now, b, refundId, amount); tx.Commit? ==> RefundIdsApart(tx.db.payments)
  {
    hide RefundIdsApart;
    if b in db.payments && !RefundIdTaken(db.payments, b, refundId) {
      ApartKept(db.payments, b, db.payments[b].(status := Refunded, refundId := Some(refundId)));
    }
  }

  lemma DeliverKeepsApart(w: World, e: Event)
    requires RefundIdsApart(w.db.payments)
    ensures RefundIdsApart(ApplyDeliver(w, e).db.payments)
  {
    hide RefundIdsApart;
    var b := e.booking;
    if b in w.db.payments {
      var payment := w.db.payments[b];
      if e.CheckoutCompleted? {
        ApartKept(w.db.payments, b, payment.(status := Paid, paymentId := Some(e.paymentId)));
      }
      if e.RefundCompleted? && !(e.refundId.Some? && RefundIdTaken(w.db.payments, b, e.refundId.value)) {
        var refundId := if e.refundId.Some? then e.refundId else payment.refundId;
        ApartKept(w.db.payments, b, payment.(status := Refunded, refundId := refundId));
      }
    }
  }

  lemma CancelKeepsApart(w: World, user: nat, b: nat)
    requires RefundIdsApart(w.db.payments)
    ensures RefundIdsApart(ApplyCancel(w, user, b).db.payments)
  {
    hide RefundIdsApart;
    if b in w.db.payments {
      ApartKept(w.db.payments, b, w.db.payments[b].(status := RefundPending));
    }
  }

  lemma CreateKeepsApart(w: World, verified: bool, key: ClientKey, request: Request)
    requires RefundIdsApart(w.db.payments)
    ensures RefundIdsApart(ApplyCreate(w, verified, key, request).db.payments)
  {
    hide BookingRow;
  }

  lemma StepKeepsApart(w: World, step: Step)
    requires RefundIdsApart(w.db.payments)
    ensures RefundIdsApart(Apply(w, step).db.payments)
  {
    hide RefundIdsApart, ApplyAdvance, ApplyDeliver, ApplyCancel, ApplyCreate;
    match step {
      case Advance(f, reply) => AdvanceKeepsApart(w, f, reply);
      case Deliver(e) => DeliverKeepsApart(w, e);
      case Cancel(user, b) => CancelKeepsApart(w, user, b);
      case Create(verified, key, request) => CreateKeepsApart(w, verified, key, request);
      case _ =>
    }
  }

  lemma {:induction false} RunKeepsApart(w: World, steps: seq<Step>)
    requires RefundIdsApart(w.db.payments)
    ensures RefundIdsApart(Run(w, steps).db.payments)
    decreases |steps|
  {
    hide RefundIdsApart, Apply;
    if steps != [] {
      StepKeepsApart(w, steps[0]);
      RunKeepsApart(Apply(w, steps[0]), steps[1..]);
    }
  }

  lemma ReachedIsGood(config: Config, now: int, steps: seq<Step>)
    ensures var db := Reached(config, now, steps).db; RowsOk(db) && RefundIdsApart(db.payments)
  {
    ReachedInv(config, now, steps);
    RunKeepsApart(Initial(config, now), steps);
  }

  /** From every reachable state the reconciliation settles exactly the selected bookings whose inspection
      reports the full refund: it counts them, refunds their payments, and cancels and releases those whose
      seats are not back yet. Requested refunds with another answer leave their booking, refunds never
      requested are requested, and every other booking stays.
    */
  lemma ReconcileSettlesExactly(config: Config, now: int, steps: seq<Step>, at: int, limit: nat,
                                answer: Selected -> Reply, i: nat, c: nat)
    requires var db := Reached(config, now, steps).db;
      i < |TakeSelected(Unsettled(db, |db.bookings|), limit)|
    ensures var db := Reached(config, now, steps).db;
      var rows := TakeSelected(Unsettled(db, |db.bookings|), limit);
      var batch := ReconcileAll(db, at, rows, answer); var b := rows[i].booking;
      && batch.changed == GrantedCount(db, rows, answer)
      && b < |db.bookings| == |batch.db.bookings| && b in batch.db.payments
      && (rows[i].refundId.Some? ==>
            var granted := Granted(rows[i], answer(rows[i]), db.bookings[b].totalCents);
            && (batch.db.payments[b].status == Refunded <==> granted)
            && batch.db.bookings[b] == if granted && db.bookings[b].releasedAt.None?
                                       then ReleasedRow(db.bookings[b], Cancelled, at) else db.bookings[b])
      && (rows[i].refundId.None? ==>
            var taken := RefundTaken(ReconcileAll(db, at, rows[..i], answer).db.payments, b, answer(rows[i]));
            batch.db.bookings[b] == RefundedRow(db.bookings[b], at, taken, answer(rows[i])))
      && (!Chosen(rows, c) ==> Same(db, batch.db, c))
  {
    var db := Reached(config, now, steps).db;
    var rows := TakeSelected(Unsettled(db, |db.bookings|), limit);
    ReachedIsGood(config, now, steps);
    SelectedIsSelection(db, limit);
    hide RowsOk, RefundIdsApart, Selection, Unsettled, TakeSelected, ReconcileAll, Granted, RefundTaken, Reached;
    hide Chosen;
    ReconcileAllKeeps(db, at, rows, answer);
    ReconcileAllSettles(db, at, rows, answer, i);
  }

  // --- checkout recovery ---

  /** The provider's answer opens the checkout: there is a session and neither of its ids is taken. */
  predicate Opens(payments: map<nat, Payment>, b: nat, answer: Option<Session>) {
    answer.Some? && !OpenedClashes(payments, b, answer.value)
  }

  ghost predicate RecoverySelection(db: Db, now: int, ids: seq<nat>) {
    && (forall i :: 0 <= i < |ids| ==> ids[i] < |db.bookings| && Recoverable(db, now, ids[i]))
    && (forall i, j :: 0 <= i < j < |ids| ==> ids[i] != ids[j])
  }

  lemma {:induction false} RecoverablesExactly(db: Db, now: int, upTo: nat)
    requires upTo <= |db.bookings|
    ensures forall i, j :: 0 <= i < j < |Recoverables(db, now, upTo)| ==>
              Recoverables(db, now, upTo)[i] < Recoverables(db, now, upTo)[j]
    ensures forall b: nat :: b in Recoverables(db, now, upTo) <==> b < upTo && Recoverable(db, now, b)
  {
    hide Recoverable;
    RecoverablesExist(db, now, upTo);
    if upTo > 0 {
      RecoverablesExactly(db, now, upTo - 1);
      RecoverablesExist(db, now, upTo - 1);
    }
  }

  lemma RecoverablesSelection(db: Db, now: int, limit: nat)
    ensures RecoverySelection(db, now, Take(Recoverables(db, now, |db.bookings|), limit))
  {
    var all := Recoverables(db, now, |db.bookings|);
    RecoverablesExist(db, now, |db.bookings|);
    RecoverablesExactly(db, now, |db.bookings|);
    hide Recoverable, Recoverables;
    forall i | 0 <= i < |all| ensures Recoverable(db, now, all[i]) {
      assert all[i] in all;
    }
  }

  /** The answers that open a checkout, in the order of the loop. */
  function OpenedCount(db: Db, ids: seq<nat>, answer: nat -> Option<Session>): nat
    requires forall i :: 0 <= i < |ids| ==> ids[i] < |db.bookings|
  {
    if |ids| == 0 then 0
    else
      var front, b := ids[..|ids| - 1], ids[|ids| - 1];
      OpenedCount(db, front, answer) + if Opens(RecoverAll(db, front, answer).db.payments, b, answer(b)) then 1 else 0
  }

  /** One round over a booking still waiting for its checkout. */
  lemma RecoverRound(db: Db, now: int, before: Db, b: nat, answer: Option<Session>)
    requires RowsOk(db) && b < |db.bookings| && Recoverable(db, now, b)
    requires before == db.(payments := before.payments)
    requires b in before.payments && before.payments[b] == db.payments[b]
    ensures var user := db.bookings[b].user; var opens := Opens(before.payments, b, answer);
      && OpenCheckoutRows(before, user, b, answer)
         == (if opens then SetPayment(before, b, OpenedPayment(db.payments[b], answer.value)) else before)
      && (OpenCheckoutThrows(before, user, b, answer) <==> !opens)
  {
    assert PhaseOk(db.bookings[b]);
  }

  lemma RecoverableHasPayment(db: Db, now: int, b: nat)
    requires Recoverable(db, now, b)
    ensures b in db.payments
  {
  }

  lemma FrontRecovery(db: Db, now: int, ids: seq<nat>)
    requires RecoverySelection(db, now, ids) && |ids| > 0
    ensures var front, b := ids[..|ids| - 1], ids[|ids| - 1];
      && RecoverySelection(db, now, front) && b !in front
      && b < |db.bookings| && Recoverable(db, now, b)
      && forall c :: c in ids <==> c in front || c == b
  {
    assert ids == ids[..|ids| - 1] + [ids[|ids| - 1]];
  }

  /** Recovery counts exactly the opened checkouts and leaves every booking, and every payment it did not
      select, as it was.
    */
  lemma {:induction false} RecoverAllKeeps(db: Db, now: int, ids: seq<nat>, answer: nat -> Option<Session>)
    requires RowsOk(db) && RecoverySelection(db, now, ids)
    ensures var batch := RecoverAll(db, ids, answer);
      && batch.db == db.(payments := batch.db.payments) && batch.db.payments.Keys == db.payments.Keys
      && batch.changed == OpenedCount(db, ids, answer)
      && forall c :: c in db.payments && c !in ids ==> batch.db.payments[c] == db.payments[c]
  {
    hide RowsOk, Recoverable, Opens, OpenedPayment, OpenCheckoutRows, OpenCheckoutThrows;
    if |ids| > 0 {
      var front, b := ids[..|ids| - 1], ids[|ids| - 1];
      FrontRecovery(db, now, ids);
      RecoverableHasPayment(db, now, b);
      RecoverAllKeeps(db, now, front, answer);
      RecoverRound(db, now, RecoverAll(db, front, answer).db, b, answer(b));
    }
  }

  /** A selected checkout is opened exactly when the provider's answer clashes with nobody's. */
  lemma {:induction false} RecoverAllOpens(db: Db, now: int, ids: seq<nat>, answer: nat -> Option<Session>, i: nat)
    requires RowsOk(db) && RecoverySelection(db, now, ids) && i < |ids|
    ensures var batch := RecoverAll(db, ids, answer); var b := ids[i];
      && b in db.payments && b in batch.db.payments
      && batch.db.payments[b] ==
           if Opens(RecoverAll(db, ids[..i], answer).db.payments, b, answer(b))
           then OpenedPayment(db.payments[b], answer(b).value) else db.payments[b]
  {
    hide RowsOk, Recoverable, Opens, OpenedPayment, OpenCheckoutRows, OpenCheckoutThrows;
    var n := |ids| - 1;
    var front, last := ids[..n], ids[n];
    FrontRecovery(db, now, ids);
    RecoverableHasPayment(db, now, last);
    RecoverAllKeeps(db, now, front, answer);
    RecoverRound(db, now, RecoverAll(db, front, answer).db, last, answer(last));
    if i < n {
      assert ids[i] in front;
      assert front[..i] == ids[..i];
      RecoverAllOpens(db, now, front, answer, i);
    }
  }

  /** From every reachable state the recovery opens exactly the selected pending checkouts whose answer
      clashes with nobody's, counts them, and leaves everything else as it was.
    */
  lemma RecoveryOpensExactly(config: Config, now: int, steps: seq<Step>, at: int, limit: nat,
                             answer: nat -> Option<Session>, i: nat, c: nat)
    requires var db := Reached(config, now, steps).db; i < |Take(Recoverables(db, at, |db.bookings|), limit)|
    ensures var db := Reached(config, now, steps).db;
      var ids := Take(Recoverables(db, at, |db.bookings|), limit);
      && RecoverySelection(db, at, ids)
      && var batch := RecoverAll(db, ids, answer);
         && batch.changed == OpenedCount(db, ids, answer)
         && batch.db == db.(payments := batch.db.payments) && batch.db.payments.Keys == db.payments.Keys
         && ids[i] in db.payments
         && batch.db.payments[ids[i]] ==
              (if Opens(RecoverAll(db, ids[..i], answer).db.payments, ids[i], answer(ids[i]))
               then OpenedPayment(db.payments[ids[i]], answer(ids[i]).value) else db.payments[ids[i]])
         && (c in db.payments && c !in ids ==> batch.db.payments[c] == db.payments[c])
  {
    var db := Reached(config, now, steps).db;
    var ids := Take(Recoverables(db, at, |db.bookings|), limit);
    ReachedIsGood(config, now, steps);
    RecoverablesSelection(db, at, limit);
    hide RowsOk, Recoverables, Take, Opens, Reached, OpenedPayment;
    RecoverAllKeeps(db, at, ids, answer);
    RecoverAllOpens(db, at, ids, answer, i);
  }
}
