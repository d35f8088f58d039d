/** Every step of uploads and deletions keeps rows and stored objects in agreement. */
module MediaSafety {
  import opened Positions
  import opened Media
  import opened MediaStorage

  lemma {:induction false} UploadKeysOf(ids: seq<nat>, k: Key)
    ensures k in UploadKeys(ids) <==> k.image in ids
  {
    if |ids| > 0 {
      UploadKeysOf(ids[..|ids| - 1], k);
      assert k in KeysOf(ids[|ids| - 1]) <==> k.image == ids[|ids| - 1] by {
        assert k.kind.Original? || k.kind.Card? || k.kind.Thumbnail?;
      }
      assert ids == ids[..|ids| - 1] + [ids[|ids| - 1]];
    }
  }

  /** Two unfinished uploads share no image. */
  lemma UploadsApart(w: World, u: nat, v: nat)
    requires Inv(w) && u in w.uploads && v in w.uploads && u != v
    ensures Clear(w.uploads[v], Members(w.uploads[u].ids))
  {
    assert UploadOk(w, u, w.uploads[u]) && UploadOk(w, v, w.uploads[v]);
  }

  /** No image is being uploaded and deleted at once. */
  lemma UploadsKeepClear(w: World, d: Deletion, u: nat)
    requires Inv(w) && d in w.deletions && u in w.uploads
    ensures d.image !in w.uploads[u].ids
  {
    assert DeletionOk(w, d) && UploadOk(w, u, w.uploads[u]);
  }

  // --- uploads ---

  /** A step of one upload keeps everything else, once its own images and its own state are settled. */
  lemma UploadStep(w: World, w': World, u: nat)
    requires Inv(w) && u in w.uploads && Grows(w, w') && ImagesOk(w'.images)
    requires w'.deletions == w.deletions
    requires forall a :: a !in Members(w.uploads[u].ids) ==> Untouched(w, w', a)
    requires forall a :: a in Members(w.uploads[u].ids) ==> IdOk(w', a)
    requires forall v :: v in w'.uploads ==>
      if v == u then UploadOk(w', u, w'.uploads[u]) else v in w.uploads && w.uploads[v] == w'.uploads[v]
    ensures Inv(w')
  {
    var touched := Members(w.uploads[u].ids);
    hide ImagesOk, IdOk, UploadOk, DeletionOk, Untouched, Grows, Members, Clear;
    forall v | v in w'.uploads && v != u ensures Clear(w.uploads[v], touched) {
      UploadsApart(w, u, v);
    }
    forall d | d in w'.deletions ensures d.image !in touched {
      UploadsKeepClear(w, d, u);
      assert d.image !in w.uploads[u].ids ==> d.image !in touched by { MembersOf(w.uploads[u].ids, d.image); }
    }
    Framed(w, w', touched);
  }

  lemma MembersOf(ids: seq<nat>, a: nat)
    ensures a in Members(ids) <==> a in ids
  {
  }

  lemma PutOkId(w: World, u: nat, a: nat)
    requires u in w.uploads && w.uploads[u].Putting? && |w.uploads[u].todo| > 0
    requires IdOk(w, a) && w.uploads[u].todo[0].image in w.owner && w.uploads[u].todo[0].image in w.images
    ensures IdOk(ApplyUpload(w, PutOk(u)), a)
  {
  }

  lemma PutOkKeeps(w: World, u: nat)
    requires Inv(w) && u in w.uploads && w.uploads[u].Putting? && |w.uploads[u].todo| > 0
    ensures Inv(ApplyUpload(w, PutOk(u)))
  {
    hide ImagesOk, DeletionOk, IdOk, UploadKeys;
    var f, w' := w.uploads[u], ApplyUpload(w, PutOk(u));
    var k := f.todo[0];
    assert UploadOk(w, u, f);
    assert k in UploadKeys(f.ids) by {
      assert UploadKeys(f.ids)[|f.uploaded|] == k;
    }
    UploadKeysOf(f.ids, k);
    assert k.image in w.owner && k.image in w.images;
    assert forall a :: a !in Members(f.ids) ==> Untouched(w, w', a);
    PutOkUpload(w, u);
    hide UploadOk, Untouched;
    forall a | a in Members(f.ids) ensures IdOk(w', a) {
      PutOkId(w, u, a);
    }
    UploadStep(w, w', u);
  }

  lemma PutOkUpload(w: World, u: nat)
    requires Inv(w) && u in w.uploads && w.uploads[u].Putting? && |w.uploads[u].todo| > 0
    requires w.uploads[u].todo[0].image in w.uploads[u].ids
    ensures var w' := ApplyUpload(w, PutOk(u)); UploadOk(w', u, w'.uploads[u])
  {
    hide UploadKeys, ImagesOk, IdOk, DeletionOk;
    var f := w.uploads[u];
    assert UploadOk(w, u, f);
    assert f.uploaded + [f.todo[0]] + f.todo[1..] == f.uploaded + f.todo;
  }

  lemma PutFailsUpload(w: World, u: nat, stored: bool)
    requires u in w.uploads && w.uploads[u].Putting? && |w.uploads[u].todo| > 0
    requires UploadOk(w, u, w.uploads[u])
    ensures var w' := ApplyUpload(w, PutFails(u, stored)); UploadOk(w', u, w'.uploads[u])
  {
    hide UploadKeys;
  }

  lemma PutFailsId(w: World, u: nat, stored: bool, a: nat)
    requires u in w.uploads && w.uploads[u].Putting? && |w.uploads[u].todo| > 0
    requires IdOk(w, a) && w.uploads[u].todo[0].image in w.owner
    requires a in w.images && w.images[a].state == PendingUpload
    ensures IdOk(ApplyUpload(w, PutFails(u, stored)), a)
  {
  }

  lemma PutFailsKeeps(w: World, u: nat, stored: bool)
    requires Inv(w) && u in w.uploads && w.uploads[u].Putting? && |w.uploads[u].todo| > 0
    ensures Inv(ApplyUpload(w, PutFails(u, stored)))
  {
    hide ImagesOk, DeletionOk, IdOk, UploadKeys;
    var f, w' := w.uploads[u], ApplyUpload(w, PutFails(u, stored));
    var k := f.todo[0];
    assert UploadOk(w, u, f);
    assert k in UploadKeys(f.ids) by {
      assert UploadKeys(f.ids)[|f.uploaded|] == k;
    }
    UploadKeysOf(f.ids, k);
    assert k.image in w.owner;
    assert forall a :: a !in Members(f.ids) ==> Untouched(w, w', a);
    PutFailsUpload(w, u, stored);
    hide UploadOk, Untouched;
    forall a | a in Members(f.ids) ensures IdOk(w', a) {
      PutFailsId(w, u, stored, a);
    }
    UploadStep(w, w', u);
  }

  lemma UndoKeeps(w: World, u: nat)
    requires Inv(w) && u in w.uploads && w.uploads[u].Undoing? && |w.uploads[u].uploaded| > 0
    ensures Inv(ApplyUpload(w, Undo(u)))
  {
    hide ImagesOk, DeletionOk, UploadKeys;
    var f, w' := w.uploads[u], ApplyUpload(w, Undo(u));
    var n := |f.uploaded| - 1;
    assert UploadOk(w, u, f);
    assert f.uploaded[n] in f.uploaded;
    assert f.uploaded == f.uploaded[..n] + [f.uploaded[n]];
    forall a | a in Members(f.ids) ensures IdOk(w', a) {
      assert IdOk(w, a);
    }
    UploadStep(w, w', u);
  }

  lemma UndoFailsKeeps(w: World, u: nat, removed: bool)
    requires Inv(w) && u in w.uploads && w.uploads[u].Undoing? && |w.uploads[u].uploaded| > 0
    ensures Inv(ApplyUpload(w, UndoFails(u, removed)))
  {
    hide ImagesOk, DeletionOk, UploadKeys;
    var f, w' := w.uploads[u], ApplyUpload(w, UndoFails(u, removed));
    assert UploadOk(w, u, f);
    assert f.uploaded[|f.uploaded| - 1] in f.uploaded;
    forall a | a in Members(f.ids) ensures IdOk(w', a) {
      assert IdOk(w, a);
    }
    UploadStep(w, w', u);
  }

  /** With nothing left of its objects, a withdrawn upload takes its rows with it. */
  lemma WithdrawnRows(w: World, w': World, ids: seq<nat>, a: nat)
    requires IdOk(w, a) && Grows(w, w') && w'.objects == w.objects && w'.lost == w.lost
    requires OnlyPositions(w.images - Members(ids), w'.images)
    requires forall k :: k in w.objects && k.image in ids ==> k in w.lost
    ensures a !in Members(ids) ==> Untouched(w, w', a)
    ensures a in Members(ids) ==> IdOk(w', a)
  {
  }

  lemma WithdrawKeeps(w: World, u: nat)
    requires Inv(w) && u in w.uploads && w.uploads[u].Undoing? && |w.uploads[u].uploaded| == 0
    ensures Inv(ApplyUpload(w, Withdraw(u)))
  {
    hide DeletionOk, ImagesOk, RemovePending, IdOk, OnlyPositions, UploadKeys;
    var f, w' := w.uploads[u], ApplyUpload(w, Withdraw(u));
    assert UploadOk(w, u, f);
    RemovePendingDone(w.images, w.tours, f.tour, Members(f.ids));
    if f.tour in w.tours {
      assert OwnRows(w.images, f.tour, Members(f.ids));
      RemovePendingKeeps(w.images, w.tours, f.tour, Members(f.ids));
      hide UploadOk, Untouched, Members;
      forall a ensures (a !in Members(f.ids) ==> Untouched(w, w', a)) && (a in Members(f.ids) ==> IdOk(w', a)) {
        WithdrawnRows(w, w', f.ids, a);
      }
      UploadStep(w, w', u);
    } else {
      UploadStopsKeeps(w, u);
    }
  }

  lemma RemovePendingDone(images: Images, tours: set<nat>, t: nat, ids: set<nat>)
    ensures RemovePending(images, tours, t, ids).Done? <==> t in tours
  {
  }

  /** With all its objects stored, an upload's rows may go active. */
  lemma PublishedRow(w: World, w': World, ids: seq<nat>, a: nat)
    requires IdOk(w, a) && Grows(w, w') && w'.objects == w.objects && w'.lost == w.lost
    requires w'.images == Activate(w.images, Members(ids))
    requires forall k :: k in UploadKeys(ids) ==> k in w.objects
    requires forall k :: k in w.lost ==> k.image !in ids
    ensures a !in Members(ids) ==> Untouched(w, w', a)
    ensures a in Members(ids) ==> IdOk(w', a)
  {
    hide UploadKeys;
    if a in ids {
      forall kind ensures Key(a, kind) in w.objects {
        UploadKeysOf(ids, Key(a, kind));
      }
    }
  }

  lemma PublishKeeps(w: World, u: nat)
    requires Inv(w) && u in w.uploads && w.uploads[u].Putting? && |w.uploads[u].todo| == 0
    ensures Inv(ApplyUpload(w, Publish(u)))
  {
    hide DeletionOk, ImagesOk, Activate, IdOk, UploadKeys;
    var f, w' := w.uploads[u], ApplyUpload(w, Publish(u));
    assert UploadOk(w, u, f);
    assert f.uploaded == UploadKeys(f.ids);
    if f.tour in w.tours {
      ActivateKeeps(w.images, Members(f.ids));
      hide UploadOk, Untouched, Members;
      forall a ensures (a !in Members(f.ids) ==> Untouched(w, w', a)) && (a in Members(f.ids) ==> IdOk(w', a)) {
        PublishedRow(w, w', f.ids, a);
      }
      UploadStep(w, w', u);
    } else {
      UploadStopsKeeps(w, u);
    }
  }

  lemma UploadStopsKeeps(w: World, u: nat)
    requires Inv(w) && u in w.uploads
    ensures Inv(ApplyUpload(w, UploadStops(u)))
  {
    hide ImagesOk, UploadKeys, IdOk, UploadOk, DeletionOk;
    Framed(w, ApplyUpload(w, UploadStops(u)), {});
  }

  lemma StartedId(w: World, u: nat, t: nat, ids: seq<nat>, a: nat)
    requires IdOk(w, a) && CanStart(w, u, t, ids)
    ensures var w' := Apply(w, StartUpload(u, t, ids));
      IdOk(w', a) && (a !in Members(ids) ==> Untouched(w, w', a))
  {
    ReservedRows(w.images, t, ids, |Visible(w.images, t)|, a);
  }

  lemma StartedUpload(w: World, u: nat, t: nat, ids: seq<nat>)
    requires Inv(w) && CanStart(w, u, t, ids)
    ensures var w' := Apply(w, StartUpload(u, t, ids)); UploadOk(w', u, w'.uploads[u])
  {
    hide ImagesOk, UploadKeys, Reserved;
    var w' := Apply(w, StartUpload(u, t, ids));
    forall a | a in ids ensures a in w'.images && w'.images[a].tour == t
      && w'.images[a].state == PendingUpload && a in w'.owner && w'.owner[a] == u
    {
      ReservedRows(w.images, t, ids, |Visible(w.images, t)|, a);
    }
    forall k | k in w'.objects ensures k.image !in ids {
      assert IdOk(w, k.image) && k == Key(k.image, k.kind);
    }
    forall k | k in w.lost ensures k.image !in ids {
      assert IdOk(w, k.image) && k == Key(k.image, k.kind);
    }
  }

  lemma StartUploadKeeps(w: World, u: nat, t: nat, ids: seq<nat>)
    requires Inv(w) && CanStart(w, u, t, ids)
    ensures Inv(Apply(w, StartUpload(u, t, ids)))
  {
    var w' := Apply(w, StartUpload(u, t, ids));
    hide ImagesOk, IdOk, Untouched, Reserve;
    ReserveKeeps(w.images, w.tours, t, ids);
    StartedUpload(w, u, t, ids);
    forall v | v in w.uploads ensures Clear(w.uploads[v], Members(ids)) {
      assert UploadOk(w, v, w.uploads[v]);
    }
    forall d | d in w.deletions ensures d.image !in Members(ids) {
      assert DeletionOk(w, d);
    }
    hide UploadOk, DeletionOk;
    forall a ensures IdOk(w', a) && (a !in Members(ids) ==> Untouched(w, w', a)) {
      StartedId(w, u, t, ids, a);
    }
    Framed(w, w', Members(ids));
  }

  // --- deletions ---

  /** A step of one deletion keeps everything else, once its image is settled. */
  lemma DeletionStep(w: World, w': World, d: Deletion)
    requires Inv(w) && d in w.deletions && Grows(w, w') && ImagesOk(w'.images)
    requires w'.uploads == w.uploads
    requires forall a :: a != d.image ==> Untouched(w, w', a)
    requires IdOk(w', d.image)
    requires d.image in w'.images ==> d.image in w.images && w'.images[d.image] == w.images[d.image]
    requires w'.objects <= w.objects
    requires forall e :: e in w'.deletions ==> e in w.deletions || DeletionOk(w', e)
    requires forall e :: e in w.deletions && e.image == d.image ==>
      DeletionOk(w', e) || e !in w'.deletions
    ensures Inv(w')
  {
    hide ImagesOk, IdOk, UploadOk, DeletionOk, Untouched, Grows;
    forall u | u in w.uploads ensures Clear(w.uploads[u], {d.image}) {
      UploadsKeepClear(w, d, u);
    }
    Framed(w, w', {d.image});
  }

  /** Deleting an object keeps every deletion of the same image right. */
  lemma FewerObjects(w: World, w': World, d: Deletion)
    requires DeletionOk(w, d) && Grows(w, w') && w'.objects <= w.objects
    requires d.image in w'.images ==> d.image in w.images && w'.images[d.image] == w.images[d.image]
    ensures DeletionOk(w', d)
  {
  }

  lemma DeleteOkKeeps(w: World, d: Deletion)
    requires Inv(w) && d in w.deletions && |d.todo| > 0
    ensures Inv(ApplyDelete(w, DeleteOk(d)))
  {
    hide ImagesOk, UploadOk;
    var w', next := ApplyDelete(w, DeleteOk(d)), Deletion(d.tour, d.image, d.todo[1..]);
    assert DeletionOk(w, d) && IdOk(w, d.image);
    assert d.todo[0] in d.todo && d.todo == [d.todo[0]] + d.todo[1..];
    assert DeletionOk(w', next);
    forall e | e in w.deletions ensures DeletionOk(w', e) {
      FewerObjects(w, w', e);
    }
    DeletionStep(w, w', d);
  }

  lemma DeleteFailsKeeps(w: World, d: Deletion, removed: bool)
    requires Inv(w) && d in w.deletions && |d.todo| > 0
    ensures Inv(ApplyDelete(w, DeleteFails(d, removed)))
  {
    hide ImagesOk, UploadOk;
    var w' := ApplyDelete(w, DeleteFails(d, removed));
    assert DeletionOk(w, d) && IdOk(w, d.image);
    assert d.todo[0] in d.todo;
    forall e | e in w.deletions ensures DeletionOk(w', e) {
      FewerObjects(w, w', e);
    }
    DeletionStep(w, w', d);
  }

  /** Once its objects are gone an image's row may go too. */
  lemma FinishedId(w: World, w': World, d: Deletion, a: nat)
    requires IdOk(w, a) && DeletionOk(w, d) && |d.todo| == 0
    requires w' == w.(deletions := w'.deletions, images := DeleteRow(w.images, d.tour, d.image))
    ensures IdOk(w', a) && (a != d.image ==> Untouched(w, w', a))
  {
  }

  lemma FinishDeleteKeeps(w: World, d: Deletion)
    requires Inv(w) && d in w.deletions && |d.todo| == 0
    ensures Inv(ApplyDelete(w, FinishDelete(d)))
  {
    hide ImagesOk, UploadOk, IdOk, DeletionOk;
    var w' := ApplyDelete(w, FinishDelete(d));
    if d.tour in w.tours {
      DeleteRowKeeps(w.images, d.tour, d.image);
      hide Untouched;
      forall e | e in w.deletions ensures DeletionOk(w', e) {
        FewerObjects(w, w', e);
      }
      forall a ensures IdOk(w', a) && (a != d.image ==> Untouched(w, w', a)) {
        FinishedId(w, w', d, a);
      }
      DeletionStep(w, w', d);
    } else {
      DeleteStopsKeeps(w, d);
    }
  }

  lemma DeleteStopsKeeps(w: World, d: Deletion)
    requires Inv(w) && d in w.deletions
    ensures Inv(ApplyDelete(w, DeleteStops(d)))
  {
    hide ImagesOk, UploadKeys, IdOk, UploadOk, DeletionOk;
    Framed(w, ApplyDelete(w, DeleteStops(d)), {});
  }

  lemma StartDeleteKeeps(w: World, t: nat, id: nat)
    requires Inv(w) && MarkPendingDelete(w.images, w.tours, t, id).Done?
    ensures Inv(Apply(w, StartDelete(t, id)))
  {
    var w', d := Apply(w, StartDelete(t, id)), Deletion(t, id, KeysOf(id));
    MarkKeeps(w.images, w.tours, t, id);
    MarkOnlyPositions(w.images, w.tours, t, id);
    assert IdOk(w, id);
    var state := w.images[id].state;
    assert state != PendingUpload;
    assert w'.images[id].state == PendingDelete;
    forall a | a != id ensures Untouched(w, w', a) {
    }
    hide MarkPendingDelete, ImagesOk;
    assert DeletionOk(w', d) by {
      forall k: Key | k.image == id ensures k in KeysOf(id) {
        assert k.kind.Original? || k.kind.Card? || k.kind.Thumbnail?;
      }
    }
    forall u | u in w.uploads ensures Clear(w.uploads[u], {id}) {
      assert UploadOk(w, u, w.uploads[u]);
    }
    forall e | e in w.deletions && e.image == id ensures DeletionOk(w', e) {
      assert DeletionOk(w, e);
    }
    hide IdOk, UploadOk, DeletionOk, Untouched;
    Framed(w, w', {id});
  }

  // --- whole runs ---

  lemma StepKeeps(w: World, step: Step)
    requires Inv(w)
    ensures Inv(Apply(w, step))
  {
    hide Inv, ApplyUpload, ApplyDelete, CanStart, MarkPendingDelete;
    match step
    case StartUpload(u, t, ids) => if CanStart(w, u, t, ids) { StartUploadKeeps(w, u, t, ids); }
    case StartDelete(t, id) =>
      if MarkPendingDelete(w.images, w.tours, t, id).Done? { StartDeleteKeeps(w, t, id); }
    case DeleteOk(_) => DeletionStepKeeps(w, step);
    case DeleteFails(_, _) => DeletionStepKeeps(w, step);
    case FinishDelete(_) => DeletionStepKeeps(w, step);
    case DeleteStops(_) => DeletionStepKeeps(w, step);
    case _ => UploadStepKeeps(w, step);
  }

  lemma DeletionStepKeeps(w: World, step: Step)
    requires Inv(w) && (step.DeleteOk? || step.DeleteFails? || step.FinishDelete? || step.DeleteStops?)
    ensures Inv(Apply(w, step))
  {
    hide Inv;
    var d := step.deletion;
    if d in w.deletions {
      match step
      case DeleteOk(_) => if |d.todo| > 0 { DeleteOkKeeps(w, d); }
      case DeleteFails(_, removed) => if |d.todo| > 0 { DeleteFailsKeeps(w, d, removed); }
      case FinishDelete(_) => if |d.todo| == 0 { FinishDeleteKeeps(w, d); }
      case DeleteStops(_) => DeleteStopsKeeps(w, d);
    }
  }

  lemma UploadStepKeeps(w: World, step: Step)
    requires Inv(w)
    requires step.PutOk? || step.PutFails? || step.Undo? || step.UndoFails? || step.Withdraw? || step.Publish?
             || step.UploadStops?
    ensures Inv(Apply(w, step))
  {
    hide Inv;
    var u := step.upload;
    if u in w.uploads {
      var f := w.uploads[u];
      match step
      case PutOk(_) => if f.Putting? && |f.todo| > 0 { PutOkKeeps(w, u); }
      case PutFails(_, stored) => if f.Putting? && |f.todo| > 0 { PutFailsKeeps(w, u, stored); }
      case Undo(_) => if f.Undoing? && |f.uploaded| > 0 { UndoKeeps(w, u); }
      case UndoFails(_, removed) => if f.Undoing? && |f.uploaded| > 0 { UndoFailsKeeps(w, u, removed); }
      case Withdraw(_) => if f.Undoing? && |f.uploaded| == 0 { WithdrawKeeps(w, u); }
      case Publish(_) => if f.Putting? && |f.todo| == 0 { PublishKeeps(w, u); }
      case UploadStops(_) => UploadStopsKeeps(w, u);
    }
  }

  lemma StartOk(tours: set<nat>)
    ensures Inv(Start(tours))
  {
    forall t ensures NumberingOk(PositionsOf(map[], t)) {
      assert PositionsOf(map[], t) == map[];
    }
  }

  lemma {:induction false} RunKeeps(tours: set<nat>, steps: seq<Step>)
    ensures Inv(Run(Start(tours), steps))
  {
    if |steps| == 0 {
      StartOk(tours);
    } else {
      RunKeeps(tours, steps[..|steps| - 1]);
      StepKeeps(Run(Start(tours), steps[..|steps| - 1]), steps[|steps| - 1]);
    }
  }

  /** Whatever ran, a tour's visible images are numbered 1..n and there are at most ten of them. */
  lemma PositionsAlwaysDense(tours: set<nat>, steps: seq<Step>, t: nat)
    ensures var pos := PositionsOf(Run(Start(tours), steps).images, t);
      Injective(pos) && pos.Values == UpTo(|pos|) && |pos| <= 10
  {
    RunKeeps(tours, steps);
    assert NumberingOk(PositionsOf(Run(Start(tours), steps).images, t));
  }

  /** Publishing an upload that has put everything makes each of its images active where it stands. */
  lemma PublishShows(w: World, u: nat)
    requires Inv(w) && u in w.uploads && w.uploads[u].Putting? && w.uploads[u].todo == []
    requires w.uploads[u].tour in w.tours
    ensures var w' := Apply(w, Publish(u));
      && u !in w'.uploads && w'.objects == w.objects
      && w'.images.Keys == w.images.Keys
      && forall a :: a in w.uploads[u].ids && a in w.images ==>
           && (forall kind :: Key(a, kind) in w'.objects)
           && w'.images[a] == Image(w.images[a].tour, w.images[a].position, Active)
  {
    var w' := Apply(w, Publish(u));
    StepKeeps(w, Publish(u));
    forall a | a in w.uploads[u].ids && a in w.images ensures forall kind :: Key(a, kind) in w'.objects {
      assert w'.images[a].state == Active;
      assert IdOk(w', a);
    }
  }

  /** Finishing a deletion removes the image's row. */
  lemma FinishRemoves(w: World, d: Deletion)
    requires Inv(w) && d in w.deletions && d.todo == [] && d.tour in w.tours
    requires d.image in w.images && w.images[d.image].tour == d.tour
    ensures Apply(w, FinishDelete(d)).images == w.images - {d.image}
  {
    assert DeletionOk(w, d);
  }

  /** Whatever ran, a published image has all three of its objects. */
  lemma ActiveImagesAreStored(tours: set<nat>, steps: seq<Step>, a: nat)
    ensures var w := Run(Start(tours), steps);
      a in w.images && w.images[a].state == Active ==> forall kind :: Key(a, kind) in w.objects
  {
    RunKeeps(tours, steps);
    assert IdOk(Run(Start(tours), steps), a);
  }

  /** Whatever ran, an object without a row was stored by a put that reported failure. */
  lemma OrphansWereLost(tours: set<nat>, steps: seq<Step>, k: Key)
    ensures var w := Run(Start(tours), steps);
      k in w.objects && k.image !in w.images ==> k in w.lost
  {
    RunKeeps(tours, steps);
    assert IdOk(Run(Start(tours), steps), k.image) && k == Key(k.image, k.kind);
  }

  /** A store whose failed puts store nothing loses nothing. */
  predicate HonestPuts(steps: seq<Step>) {
    forall i :: 0 <= i < |steps| ==> !(steps[i].PutFails? && steps[i].stored)
  }

  lemma HonestStep(w: World, step: Step)
    requires !(step.PutFails? && step.stored)
    ensures Apply(w, step).lost == w.lost
  {
    hide CanStart, RemovePending, MarkPendingDelete;
  }

  lemma {:induction false} HonestPutsLoseNothing(tours: set<nat>, steps: seq<Step>)
    requires HonestPuts(steps)
    ensures Run(Start(tours), steps).lost == {}
  {
    if |steps| > 0 {
      var last := |steps| - 1;
      HonestPutsLoseNothing(tours, steps[..last]);
      hide Apply;
      assert !(steps[last].PutFails? && steps[last].stored);
      HonestStep(Run(Start(tours), steps[..last]), steps[last]);
    }
  }

  /** With such a store rows and objects always agree, under any failures and any interleaving. */
  lemma EveryObjectHasItsRow(tours: set<nat>, steps: seq<Step>, k: Key)
    requires HonestPuts(steps)
    ensures var w := Run(Start(tours), steps); k in w.objects ==> k.image in w.images
  {
    HonestPutsLoseNothing(tours, steps);
    OrphansWereLost(tours, steps, k);
  }

  // --- exactly when an orphan appears ---

  ghost predicate NoOrphans(w: World) {
    forall k :: k in w.objects ==> k.image in w.images
  }

  /** An upload about to withdraw its rows while something is still stored under its images. */
  ghost predicate Forgets(w: World, step: Step) {
    && step.Withdraw? && step.upload in w.uploads
    && var f := w.uploads[step.upload];
       && f.Undoing? && |f.uploaded| == 0 && f.tour in w.tours
       && exists k :: k in w.objects && k.image in f.ids
  }

  lemma WithdrawForgets(w: World, u: nat)
    requires Inv(w) && NoOrphans(w) && u in w.uploads
    ensures NoOrphans(ApplyUpload(w, Withdraw(u))) <==> !Forgets(w, Withdraw(u))
  {
    hide DeletionOk, ImagesOk, RemovePending, IdOk, UploadKeys;
    var f, w' := w.uploads[u], ApplyUpload(w, Withdraw(u));
    assert UploadOk(w, u, f);
    RemovePendingDone(w.images, w.tours, f.tour, Members(f.ids));
    if f.Undoing? && |f.uploaded| == 0 && f.tour in w.tours {
      RemovePendingKeeps(w.images, w.tours, f.tour, Members(f.ids));
      hide UploadOk;
      assert w'.images.Keys == w.images.Keys - Members(f.ids);
    }
  }

  lemma UploadsForgetNothing(w: World, step: Step)
    requires Inv(w) && NoOrphans(w)
    requires step.PutOk? || step.PutFails? || step.Undo? || step.UndoFails? || step.Publish? || step.UploadStops?
    requires step.upload in w.uploads
    ensures NoOrphans(ApplyUpload(w, step))
  {
    hide DeletionOk, ImagesOk, IdOk, UploadKeys;
    var f := w.uploads[step.upload];
    assert UploadOk(w, step.upload, f);
    if f.Putting? && |f.todo| > 0 {
      assert f.todo[0] in UploadKeys(f.ids) by {
        assert UploadKeys(f.ids)[|f.uploaded|] == f.todo[0];
      }
      UploadKeysOf(f.ids, f.todo[0]);
    }
  }

  lemma DeletionsForgetNothing(w: World, step: Step)
    requires Inv(w) && NoOrphans(w) && (step.DeleteOk? || step.DeleteFails? || step.FinishDelete? || step.DeleteStops?)
    requires step.deletion in w.deletions
    ensures NoOrphans(ApplyDelete(w, step))
  {
    hide ImagesOk, UploadOk, IdOk;
    var d, w' := step.deletion, ApplyDelete(w, step);
    assert DeletionOk(w, d);
    if step.FinishDelete? && |d.todo| == 0 && d.image in w.images {
      forall k | k in w.lost && k.image in w.images ensures k.image != d.image {
        assert IdOk(w, k.image);
        LostIsPending(w, k);
      }
    }
  }

  lemma LostIsPending(w: World, k: Key)
    requires IdOk(w, k.image) && k in w.lost && k.image in w.images
    ensures w.images[k.image].state == PendingUpload
  {
    assert k == Key(k.image, k.kind);
  }

  /** An orphan appears in one step exactly when an upload withdraws its rows over something it lost. */
  lemma OrphansAppearExactly(w: World, step: Step)
    requires Inv(w) && NoOrphans(w)
    ensures NoOrphans(Apply(w, step)) <==> !Forgets(w, step)
  {
    hide Inv, ApplyUpload, ApplyDelete, CanStart;
    match step
    case StartUpload(u, t, ids) =>
      if CanStart(w, u, t, ids) { StartForgetsNothing(w, u, t, ids); }
    case StartDelete(t, id) =>
      if MarkPendingDelete(w.images, w.tours, t, id).Done? {
        MarkOnlyPositions(w.images, w.tours, t, id);
      }
    case Withdraw(u) => if u in w.uploads { WithdrawForgets(w, u); }
    case DeleteOk(d) => if d in w.deletions { DeletionsForgetNothing(w, step); }
    case DeleteFails(d, _) => if d in w.deletions { DeletionsForgetNothing(w, step); }
    case FinishDelete(d) => if d in w.deletions { DeletionsForgetNothing(w, step); }
    case DeleteStops(d) => if d in w.deletions { DeletionsForgetNothing(w, step); }
    case _ => if step.upload in w.uploads { UploadsForgetNothing(w, step); }
  }

  lemma StartForgetsNothing(w: World, u: nat, t: nat, ids: seq<nat>)
    requires NoOrphans(w) && CanStart(w, u, t, ids)
    ensures NoOrphans(Apply(w, StartUpload(u, t, ids)))
  {
    forall k | k in w.objects ensures k.image in Apply(w, StartUpload(u, t, ids)).images {
      ReservedRows(w.images, t, ids, |Visible(w.images, t)|, k.image);
    }
  }

  const LYING_PUT: seq<Step> := [StartUpload(0, 0, [7]), PutFails(0, true), Withdraw(0)]

  /** With any other store they may not: the upload forgets the object it was told had failed. */
  lemma LyingPutLeavesOrphan()
    ensures var w := Run(Start({0}), LYING_PUT);
      Key(7, Original) in w.objects && 7 !in w.images && w.uploads == map[]
  {
    var w0 := Start({0});
    var w1 := Apply(w0, LYING_PUT[0]);
    OneImageStarts();
    PutLies(w1);
    PutForgotten(Apply(w1, LYING_PUT[1]));
    hide Apply;
    LastStep(w0, LYING_PUT);
  }

  lemma PutLies(w: World)
    requires w.uploads.Keys == {0} && w.uploads[0] == Putting(0, [7], [], KeysOf(7))
    ensures var w' := Apply(w, PutFails(0, true));
      && w'.tours == w.tours && Key(7, Original) in w'.objects
      && w'.uploads.Keys == {0} && w'.uploads[0] == Undoing(0, [7], [])
  {
  }

  lemma PutForgotten(w: World)
    requires w.uploads.Keys == {0} && w.uploads[0] == Undoing(0, [7], []) && 0 in w.tours
    ensures var w' := Apply(w, Withdraw(0));
      w'.uploads == map[] && w'.objects == w.objects && 7 !in w'.images
  {
    assert Members([7]) == {7};
    CloseGapsOnlyPositions(w.images - {7}, 0, Sorted(Freed(PositionsOf(w.images, 0), {7}), MAX_FILES));
  }

  lemma OneImageStarts()
    ensures var w := Apply(Start({0}), LYING_PUT[0]);
      w.uploads.Keys == {0} && w.uploads[0] == Putting(0, [7], [], KeysOf(7)) && w.tours == {0}
  {
    assert Visible(map[], 0) == {};
    assert UploadKeys([7]) == UploadKeys([]) + KeysOf(7);
    assert CanStart(Start({0}), 0, 0, [7]);
  }

  lemma LastStep(w: World, steps: seq<Step>)
    requires |steps| == 3
    ensures Run(w, steps) == Apply(Apply(Apply(w, steps[0]), steps[1]), steps[2])
  {
    hide Apply;
    var one, two := steps[..1], steps[..2];
    assert two[..1] == one && one[..0] == [];
    assert Run(w, one) == Apply(w, steps[0]);
    assert Run(w, two) == Apply(Run(w, one), steps[1]);
  }
}
