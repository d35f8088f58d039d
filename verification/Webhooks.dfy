/** Webhook delivery: duplicates, retries and rejected deliveries do not matter. */
module Webhooks {
  import opened Rows
  import opened BookingTx
  import opened ReviewTx
  import opened Machine
  import opened Invariant
  import opened Safety

  /** A delivery is accepted when its identifier is new and its transaction commits. */
  predicate Accepted(w: World, e: Event) {
    e.id !in w.db.events && DeliverTx(w.db, w.now, e).Commit?
  }

  predicate Dropped(w: World, step: Step) {
    step.Deliver? && !Accepted(w, step.event)
  }

  /** The run without the deliveries that were repeated or rejected where they arrived. */
  function Reduced(w: World, steps: seq<Step>): seq<Step>
    decreases |steps|
  {
    if steps == [] then []
    else if Dropped(w, steps[0]) then Reduced(w, steps[1..])
    else [steps[0]] + Reduced(Apply(w, steps[0]), steps[1..])
  }

  /** A rejected delivery leaves every row and the event table as they were; so does a repeat. */
  lemma DroppedIsNothing(w: World, step: Step)
    requires Dropped(w, step)
    ensures Apply(w, step) == w
  {
  }

  lemma AcceptedIsRecorded(w: World, e: Event)
    requires Accepted(w, e)
    ensures Apply(w, Deliver(e)).db.events == w.db.events + {e.id}
    ensures Apply(w, Deliver(e)).consumed == w.consumed + {e}
  {
  }

  /** Dropping them changes nothing, whatever steps are interleaved. */
  lemma {:induction false} ReducedRunsTheSame(w: World, steps: seq<Step>)
    ensures Run(w, Reduced(w, steps)) == Run(w, steps)
    decreases |steps|
  {
    hide Apply, Dropped;
    if steps != [] {
      if Dropped(w, steps[0]) {
        DroppedIsNothing(w, steps[0]);
        ReducedRunsTheSame(w, steps[1..]);
      } else {
        ReducedRunsTheSame(Apply(w, steps[0]), steps[1..]);
        assert Reduced(w, steps)[1..] == Reduced(Apply(w, steps[0]), steps[1..]);
      }
    }
  }

  /** No two deliveries of a run that drops them share an event identifier. */
  ghost predicate DeliveredOnce(seen: set<string>, steps: seq<Step>) {
    && (forall i :: 0 <= i < |steps| && steps[i].Deliver? ==> steps[i].event.id !in seen)
    && (forall i, j :: 0 <= i < j < |steps| && steps[i].Deliver? && steps[j].Deliver? ==>
          steps[i].event.id != steps[j].event.id)
  }

  lemma {:induction false} ReducedDeliversOnce(w: World, steps: seq<Step>)
    requires Inv(w)
    ensures DeliveredOnce(w.db.events, Reduced(w, steps))
    decreases |steps|
  {
    hide Inv, Apply;
    if steps != [] {
      if Dropped(w, steps[0]) {
        DroppedIsNothing(w, steps[0]);
        ReducedDeliversOnce(w, steps[1..]);
      } else {
        var w1 := Apply(w, steps[0]);
        StepKeeps(w, steps[0]);
        ReducedDeliversOnce(w1, steps[1..]);
        if steps[0].Deliver? {
          AcceptedIsRecorded(w, steps[0].event);
        }
        DeliveredOnceCons(w.db.events, w1.db.events, steps[0], Reduced(w1, steps[1..]));
      }
    }
  }

  lemma DeliveredOnceCons(seen: set<string>, seen': set<string>, step: Step, rest: seq<Step>)
    requires DeliveredOnce(seen', rest) && seen <= seen'
    requires step.Deliver? ==> step.event.id !in seen && step.event.id in seen'
    ensures DeliveredOnce(seen, [step] + rest)
  {
  }

  function Ids(steps: seq<Step>): set<string> {
    set i | 0 <= i < |steps| && steps[i].Deliver? :: steps[i].event.id
  }

  /** The reduced run keeps one delivery of every event the original run consumed, and no other. */
  lemma {:induction false} ReducedKeepsEveryEvent(w: World, steps: seq<Step>)
    requires Inv(w)
    ensures Run(w, steps).db.events == w.db.events + Ids(Reduced(w, steps))
    decreases |steps|
  {
    hide Inv, Apply, Dropped, Accepted;
    if steps != [] {
      if Dropped(w, steps[0]) {
        DroppedIsNothing(w, steps[0]);
        ReducedKeepsEveryEvent(w, steps[1..]);
      } else {
        var w1 := Apply(w, steps[0]);
        StepKeeps(w, steps[0]);
        ReducedKeepsEveryEvent(w1, steps[1..]);
        EventsOfStep(w, steps[0]);
        IdsCons(steps[0], Reduced(w1, steps[1..]));
      }
    }
  }

  lemma IdsCons(step: Step, rest: seq<Step>)
    ensures Ids([step] + rest) == (if step.Deliver? then {step.event.id} else {}) + Ids(rest)
  {
    var all := [step] + rest;
    forall id | id in Ids(rest) ensures id in Ids(all) {
      var i :| 0 <= i < |rest| && rest[i].Deliver? && rest[i].event.id == id;
      assert all[i + 1] == rest[i];
    }
    if step.Deliver? {
      assert all[0] == step;
    }
  }

  lemma AdvanceQuiet(w: World, f: Flight, reply: Reply)
    ensures ApplyAdvance(w, f, reply).db.events == w.db.events
  {
  }

  lemma ReleaseQuiet(db: Db, b: nat, status: Status, now: int)
    requires b < |db.bookings|
    ensures Release(db, b, status, now).Commit? ==> Release(db, b, status, now).db.events == db.events
  {
  }

  lemma CancelQuiet(w: World, user: nat, b: nat)
    ensures ApplyCancel(w, user, b).db.events == w.db.events
  {
    hide CancelTx;
    CancelTxQuiet(w.db, w.config, w.now, user, b);
  }

  lemma CancelTxQuiet(db: Db, config: Config, now: int, user: nat, b: nat)
    ensures var tx := CancelTx(db, config, now, user, b); tx.Commit? ==> tx.db.events == db.events
  {
    hide Release;
    if b < |db.bookings| {
      ReleaseQuiet(db, b, Cancelled, now);
    }
  }

  lemma CreateQuiet(w: World, verified: bool, key: ClientKey, request: Request)
    ensures ApplyCreate(w, verified, key, request).db.events == w.db.events
  {
  }

  lemma ExpireQuiet(w: World, b: nat)
    ensures ApplyExpire(w, b).db.events == w.db.events
  {
  }

  lemma ReviewQuiet(w: World, step: Step)
    requires step.CreateReview? || step.UpdateReview? || step.DeleteReview?
    ensures Apply(w, step).db.events == w.db.events
  {
  }

  /** No other step touches the event table. */
  lemma QuietStep(w: World, step: Step)
    requires !step.Deliver?
    ensures Apply(w, step).db.events == w.db.events
  {
    hide ApplyAdvance, ApplyCancel, ApplyCreate, ApplyExpire, CreateReviewTx, UpdateReviewTx, DeleteReviewTx;
    match step {
      case Advance(f, reply) => AdvanceQuiet(w, f, reply);
      case Cancel(user, b) => CancelQuiet(w, user, b);
      case Create(verified, key, request) => CreateQuiet(w, verified, key, request);
      case Expire(b) => ExpireQuiet(w, b);
      case CreateReview(_, _, _) => ReviewQuiet(w, step);
      case UpdateReview(_, _, _, _) => ReviewQuiet(w, step);
      case DeleteReview(_, _, _) => ReviewQuiet(w, step);
      case _ =>
    }
  }

  lemma EventsOfStep(w: World, step: Step)
    requires !Dropped(w, step)
    ensures Apply(w, step).db.events == w.db.events + if step.Deliver? then {step.event.id} else {}
  {
    hide Apply, Accepted;
    if step.Deliver? {
      AcceptedIsRecorded(w, step.event);
    } else {
      QuietStep(w, step);
    }
  }

  /** A list of deliveries ends in the state of its first accepted deliveries alone. */
  lemma DeliveryTheorem(config: Config, now: int, before: seq<Step>, deliveries: seq<Step>)
    ensures var w := Reached(config, now, before); var kept := Reduced(w, deliveries);
      && Run(w, kept) == Run(w, deliveries)
      && DeliveredOnce(w.db.events, kept)
      && Run(w, deliveries).db.events == w.db.events + Ids(kept)
  {
    hide Inv, Run;
    ReachedInv(config, now, before);
    var w := Reached(config, now, before);
    ReducedRunsTheSame(w, deliveries);
    ReducedDeliversOnce(w, deliveries);
    ReducedKeepsEveryEvent(w, deliveries);
  }
}
