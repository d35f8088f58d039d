/** Where the booking rows of a run come from. */
module BookingHistory {
  import opened Rows
  import opened BookingTx
  import opened Machine
  import opened Invariant
  import opened Safety
  import opened Timeline
  import opened BookingAnswers

  /** Step `n` of the run made booking `b`: a create that the rows of that moment allowed, before its start. */
  ghost predicate BookedAt(config: Config, now: int, steps: seq<Step>, b: nat, n: nat) {
    && n < |steps| && steps[n].Create?
    && var w, step := Reached(config, now, steps[..n]), steps[n];
    var w' := Apply(w, step);
    && |w.db.bookings| == b && b < |w'.db.bookings|
    && step.key !in w.db.idempotency
    && MayBook(w.db, w.now, step.verified, step.key, step.request)
    && Booked(w.db, config, w.now, step.key, step.request, w'.db)
    && w.now < w'.db.bookings[b].start
  }

  lemma ReachedAppends(config: Config, now: int, front: seq<Step>, step: Step)
    ensures Reached(config, now, front + [step]) == Apply(Reached(config, now, front), step)
  {
    RunConcat(Initial(config, now), front, [step]);
    RunOn(Reached(config, now, front), [step]);
    hide Apply;
    assert [step][1..] == [];
  }

  lemma ConfigStands(config: Config, now: int, steps: seq<Step>)
    ensures Reached(config, now, steps).config == config
  {
    InitialInv(config, now);
    RunKeeps(Initial(config, now), steps);
    hide Run, Inv;
  }

  /** Only a create adds a row, one at a time. */
  lemma AddedByCreate(w: World, step: Step, b: nat)
    requires Inv(w) && |w.db.bookings| <= b < |Apply(w, step).db.bookings|
    ensures step.Create? && b == |w.db.bookings| && step.key !in w.db.idempotency
    ensures MayBook(w.db, w.now, step.verified, step.key, step.request)
    ensures Booked(w.db, w.config, w.now, step.key, step.request, Apply(w, step).db)
  {
    if step.Create? {
      CreateAdds(w, step.verified, step.key, step.request);
    } else {
      OnlyCreateAdds(w, step);
      StepKeeps(w, step);
      hide Apply, RowsOk, ReviewStateOk, Later;
    }
  }

  lemma CreateAdds(w: World, verified: bool, key: ClientKey, request: Request)
    requires Inv(w) && |w.db.bookings| < |ApplyCreate(w, verified, key, request).db.bookings|
    ensures key !in w.db.idempotency && MayBook(w.db, w.now, verified, key, request)
    ensures Booked(w.db, w.config, w.now, key, request, ApplyCreate(w, verified, key, request).db)
  {
    hide RowsOk, OpsOk, ReviewStateOk, MayBook, Booked, CatalogOk;
    if key in w.db.idempotency {
      ReplayExactly(w.db, w.config, w.now, verified, key, request);
    } else {
      RowsHaveCatalog(w.db);
      CreateExactly(w.db, w.config, w.now, verified, key, request);
    }
    hide CreateTx;
  }

  lemma StartsStand(w: World, w': World, b: nat)
    requires Later(w, w') && b < |w.db.bookings|
    ensures b < |w'.db.bookings| && w'.db.bookings[b].start == w.db.bookings[b].start
  {
  }

  lemma CarriesOver(config: Config, now: int, front: seq<Step>, step: Step, b: nat, n: nat)
    requires BookedAt(config, now, front, b, n)
    ensures BookedAt(config, now, front + [step], b, n)
  {
    hide Reached, Apply, MayBook, Booked;
    assert (front + [step])[..n] == front[..n];
  }

  lemma MadeNow(config: Config, now: int, front: seq<Step>, step: Step, b: nat)
    requires |Reached(config, now, front).db.bookings| <= b < |Reached(config, now, front + [step]).db.bookings|
    ensures BookedAt(config, now, front + [step], b, |front|)
  {
    var w := Reached(config, now, front);
    ReachedAppends(config, now, front, step);
    ReachedInv(config, now, front);
    ConfigStands(config, now, front);
    assert (front + [step])[..|front|] == front;
    hide Reached, Apply, MayBook, Booked, Inv;
    AddedByCreate(w, step, b);
    BookedHasStart(w.db, config, w.now, step.key, step.request, Apply(w, step).db);
  }

  /** On every run each booking was made by one accepted create, before its departure started and as the rows
      of that moment allowed.
    */
  lemma {:induction false} EveryBookingWasOnSale(config: Config, now: int, steps: seq<Step>, b: nat)
    requires b < |Reached(config, now, steps).db.bookings|
    ensures exists n: nat :: BookedAt(config, now, steps, b, n)
    decreases |steps|
  {
    if steps == [] {
      NothingBooked(config, now);
    } else {
      hide Reached, BookedAt;
      var front, last := steps[..|steps| - 1], steps[|steps| - 1];
      assert steps == front + [last];
      if b < |Reached(config, now, front).db.bookings| {
        EveryBookingWasOnSale(config, now, front, b);
        var n: nat :| BookedAt(config, now, front, b, n);
        CarriesOver(config, now, front, last, b, n);
      } else {
        MadeNow(config, now, front, last, b);
      }
    }
  }

  lemma NothingBooked(config: Config, now: int)
    ensures Reached(config, now, []).db.bookings == []
  {
  }

  lemma BookedHasStart(db: Db, config: Config, now: int, key: ClientKey, request: Request, db': Db)
    requires Booked(db, config, now, key, request, db')
    ensures |db'.bookings| == |db.bookings| + 1 && now < db'.bookings[|db.bookings|].start
  {
  }

  /** So on every run a booking's start lies after the instant it was made, for good. */
  lemma BookedBeforeStart(config: Config, now: int, steps: seq<Step>, b: nat)
    requires b < |Reached(config, now, steps).db.bookings|
    ensures exists n: nat ::
      && n < |steps|
      && |Reached(config, now, steps[..n]).db.bookings| == b
      && Reached(config, now, steps[..n]).now < Reached(config, now, steps).db.bookings[b].start
  {
    EveryBookingWasOnSale(config, now, steps, b);
    var n: nat :| BookedAt(config, now, steps, b, n);
    hide MayBook, Booked, Apply;
    StartKept(config, now, steps, n, b);
  }

  lemma StartKept(config: Config, now: int, steps: seq<Step>, n: nat, b: nat)
    requires n < |steps| && b < |Apply(Reached(config, now, steps[..n]), steps[n]).db.bookings|
    ensures b < |Reached(config, now, steps).db.bookings|
    ensures Reached(config, now, steps).db.bookings[b].start
         == Apply(Reached(config, now, steps[..n]), steps[n]).db.bookings[b].start
  {
    var front, rest := steps[..n] + [steps[n]], steps[n + 1..];
    assert steps == front + rest;
    ReachedAppends(config, now, steps[..n], steps[n]);
    RunConcat(Initial(config, now), front, rest);
    ReachedInv(config, now, front);
    hide Run, Inv, Apply, Later;
    RunKeeps(Reached(config, now, front), rest);
    StartsStand(Reached(config, now, front), Reached(config, now, steps), b);
  }
}
