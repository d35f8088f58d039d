/** Image rows and the object store side by side: uploads and deletions interleave, and every put and
    every delete may fail. A failed put may still have stored its object, a failed delete may still
    have removed it, and any operation may stop for good between two of its steps.
  */
module MediaStorage {
  import opened Media

  datatype Kind = Original | Card | Thumbnail

  /** Object keys are made of the image's identifier and the rendition. */
  datatype Key = Key(image: nat, kind: Kind)

  function KeysOf(id: nat): seq<Key> {
    [Key(id, Original), Key(id, Card), Key(id, Thumbnail)]
  }

  /** The order in which an upload puts its objects. */
  function UploadKeys(ids: seq<nat>): seq<Key> {
    if |ids| == 0 then [] else UploadKeys(ids[..|ids| - 1]) + KeysOf(ids[|ids| - 1])
  }

  function Members(ids: seq<nat>): set<nat> {
    set a | a in ids
  }

  /** An upload between two awaits: still putting, or deleting what it had put, last first. */
  datatype Upload =
    | Putting(tour: nat, ids: seq<nat>, uploaded: seq<Key>, todo: seq<Key>)
    | Undoing(tour: nat, ids: seq<nat>, uploaded: seq<Key>)

  datatype Deletion = Deletion(tour: nat, image: nat, todo: seq<Key>)

  /** `owner` remembers which upload drew an identifier, and `lost` which failed puts stored anyway. */
  datatype World = World(
    tours: set<nat>,
    images: Images,
    objects: set<Key>,
    uploads: map<nat, Upload>,
    deletions: multiset<Deletion>,
    owner: map<nat, nat>,
    lost: set<Key>)

  datatype Step =
    | StartUpload(upload: nat, tour: nat, ids: seq<nat>)
    | PutOk(upload: nat)
    | PutFails(upload: nat, stored: bool)
    | Undo(upload: nat)
    | UndoFails(upload: nat, removed: bool)
    | Withdraw(upload: nat)
    | Publish(upload: nat)
    | UploadStops(upload: nat)
    | StartDelete(tour: nat, image: nat)
    | DeleteOk(deletion: Deletion)
    | DeleteFails(deletion: Deletion, removed: bool)
    | FinishDelete(deletion: Deletion)
    | DeleteStops(deletion: Deletion)

  function Drawn(owner: map<nat, nat>, upload: nat, ids: seq<nat>): map<nat, nat> {
    map a | a in owner.Keys + Members(ids) :: if a in owner then owner[a] else upload
  }

  /** A new upload draws identifiers nobody drew before. */
  predicate CanStart(w: World, upload: nat, t: nat, ids: seq<nat>) {
    && upload !in w.uploads
    && 1 <= |ids| <= MAX_FILES
    && Distinct(ids)
    && (forall a :: a in ids ==> a !in w.owner && a !in w.images)
    && Reserve(w.images, w.tours, t, ids).Done?
  }

  function ApplyUpload(w: World, step: Step): World
    requires step.PutOk? || step.PutFails? || step.Undo? || step.UndoFails? || step.Withdraw? || step.Publish?
             || step.UploadStops?
    requires step.upload in w.uploads
  {
    var u, f := step.upload, w.uploads[step.upload];
    var ended := w.(uploads := w.uploads - {u});
    match step
    case PutOk(_) =>
      if f.Putting? && |f.todo| > 0 then
        w.(objects := w.objects + {f.todo[0]},
           uploads := w.uploads[u := Putting(f.tour, f.ids, f.uploaded + [f.todo[0]], f.todo[1..])])
      else w
    case PutFails(_, stored) =>
      if f.Putting? && |f.todo| > 0 then
        var left := if stored then {f.todo[0]} else {};
        w.(objects := w.objects + left, lost := w.lost + left,
           uploads := w.uploads[u := Undoing(f.tour, f.ids, f.uploaded)])
      else w
    case Undo(_) =>
      if f.Undoing? && |f.uploaded| > 0 then
        w.(objects := w.objects - {f.uploaded[|f.uploaded| - 1]},
           uploads := w.uploads[u := Undoing(f.tour, f.ids, f.uploaded[..|f.uploaded| - 1])])
      else w
    case UndoFails(_, removed) =>
      if f.Undoing? && |f.uploaded| > 0 then
        ended.(objects := if removed then w.objects - {f.uploaded[|f.uploaded| - 1]} else w.objects)
      else w
    case Withdraw(_) =>
      if f.Undoing? && |f.uploaded| == 0 then
        match RemovePending(w.images, w.tours, f.tour, Members(f.ids))
        case Refused(_) => ended
        case Done(images) => ended.(images := images)
      else w
    case Publish(_) =>
      if f.Putting? && |f.todo| == 0 then
        if f.tour in w.tours then ended.(images := Activate(w.images, Members(f.ids))) else ended
      else w
    case UploadStops(_) => ended
  }

  function ApplyDelete(w: World, step: Step): World
    requires step.DeleteOk? || step.DeleteFails? || step.FinishDelete? || step.DeleteStops?
    requires step.deletion in w.deletions
  {
    var d := step.deletion;
    var ended := w.(deletions := w.deletions - multiset{d});
    match step
    case DeleteOk(_) =>
      if |d.todo| > 0 then
        w.(objects := w.objects - {d.todo[0]},
           deletions := w.deletions - multiset{d} + multiset{Deletion(d.tour, d.image, d.todo[1..])})
      else w
    case DeleteFails(_, removed) =>
      if |d.todo| > 0 then
        ended.(objects := if removed then w.objects - {d.todo[0]} else w.objects)
      else w
    case FinishDelete(_) =>
      if |d.todo| > 0 then w
      else if d.tour in w.tours then ended.(images := DeleteRow(w.images, d.tour, d.image)) else ended
    case DeleteStops(_) => ended
  }

  function Apply(w: World, step: Step): World {
    match step
    case StartUpload(upload, t, ids) =>
      if CanStart(w, upload, t, ids) then
        w.(images := Reserve(w.images, w.tours, t, ids).value,
           uploads := w.uploads[upload := Putting(t, ids, [], UploadKeys(ids))],
           owner := Drawn(w.owner, upload, ids))
      else w
    case StartDelete(t, id) =>
      (match MarkPendingDelete(w.images, w.tours, t, id)
       case Refused(_) => w
       case Done(images) =>
         w.(images := images, deletions := w.deletions + multiset{Deletion(t, id, KeysOf(id))}))
    case DeleteOk(d) => if d in w.deletions then ApplyDelete(w, step) else w
    case DeleteFails(d, _) => if d in w.deletions then ApplyDelete(w, step) else w
    case FinishDelete(d) => if d in w.deletions then ApplyDelete(w, step) else w
    case DeleteStops(d) => if d in w.deletions then ApplyDelete(w, step) else w
    case _ => if step.upload in w.uploads then ApplyUpload(w, step) else w
  }

  function Run(w: World, steps: seq<Step>): World {
    if |steps| == 0 then w else Apply(Run(w, steps[..|steps| - 1]), steps[|steps| - 1])
  }

  function Start(tours: set<nat>): World {
    World(tours, map[], {}, map[], multiset{}, map[], {})
  }

  // --- the invariant ---

  ghost predicate Stored(objects: set<Key>, a: nat) {
    forall kind :: Key(a, kind) in objects
  }

  /** What holds of one image whatever is in flight. */
  ghost predicate IdOk(w: World, a: nat) {
    && (a in w.images ==> a in w.owner)
    && (a in w.images && w.images[a].state == Active ==> Stored(w.objects, a))
    && (forall kind :: Key(a, kind) in w.objects ==> a in w.owner && (a in w.images || Key(a, kind) in w.lost))
    && (forall kind :: Key(a, kind) in w.lost ==>
          a in w.owner && (a in w.images ==> w.images[a].state == PendingUpload))
  }

  /** The rows of an unfinished upload are its own and still pending. */
  ghost predicate Mine(w: World, u: nat, f: Upload) {
    forall a :: a in f.ids ==>
      a in w.images && w.images[a].tour == f.tour && w.images[a].state == PendingUpload
      && a in w.owner && w.owner[a] == u
  }

  ghost predicate UploadOk(w: World, u: nat, f: Upload) {
    && Mine(w, u, f)
    && (forall k :: k in f.uploaded ==> k.image in f.ids)
    && match f
       case Putting(_, ids, uploaded, todo) =>
         && uploaded + todo == UploadKeys(ids)
         && (forall k :: k in uploaded ==> k in w.objects)
         && (forall k :: k in w.objects && k.image in ids ==> k in uploaded)
         && (forall k :: k in w.lost ==> k.image !in ids)
       case Undoing(_, ids, uploaded) =>
         forall k :: k in w.objects && k.image in ids ==> k in uploaded || k in w.lost
  }

  ghost predicate DeletionOk(w: World, d: Deletion) {
    && (d.image in w.images ==> w.images[d.image].state == PendingDelete)
    && d.image in w.owner
    && (forall k :: k in d.todo ==> k.image == d.image)
    && (forall k :: k in w.objects && k.image == d.image ==> k in d.todo || k in w.lost)
  }

  ghost predicate Inv(w: World) {
    && ImagesOk(w.images)
    && (forall a :: IdOk(w, a))
    && (forall u :: u in w.uploads ==> UploadOk(w, u, w.uploads[u]))
    && (forall d :: d in w.deletions ==> DeletionOk(w, d))
  }

  // --- framing: what a step leaves alone ---

  ghost predicate Untouched(w: World, w': World, a: nat) {
    && (a in w.images <==> a in w'.images)
    && (a in w.images ==> w'.images[a].tour == w.images[a].tour && w'.images[a].state == w.images[a].state)
    && (forall kind :: Key(a, kind) in w.objects <==> Key(a, kind) in w'.objects)
    && (forall kind :: Key(a, kind) in w.lost <==> Key(a, kind) in w'.lost)
  }

  /** History only grows. */
  ghost predicate Grows(w: World, w': World) {
    && w'.tours == w.tours
    && w.lost <= w'.lost
    && forall a :: a in w.owner ==> a in w'.owner && w'.owner[a] == w.owner[a]
  }

  lemma IdFrame(w: World, w': World, a: nat)
    requires IdOk(w, a) && Grows(w, w') && Untouched(w, w', a)
    ensures IdOk(w', a)
  {
  }

  lemma UploadFrame(w: World, w': World, u: nat, f: Upload)
    requires UploadOk(w, u, f) && Grows(w, w') && forall a :: a in f.ids ==> Untouched(w, w', a)
    ensures UploadOk(w', u, f)
  {
    forall k: Key | k.image in f.ids
      ensures (k in w.objects <==> k in w'.objects) && (k in w.lost <==> k in w'.lost)
    {
      assert Untouched(w, w', k.image) && k == Key(k.image, k.kind);
    }
  }

  lemma DeletionFrame(w: World, w': World, d: Deletion)
    requires DeletionOk(w, d) && Grows(w, w') && Untouched(w, w', d.image)
    ensures DeletionOk(w', d)
  {
    forall k: Key | k.image == d.image ensures k in w.objects <==> k in w'.objects {
      assert k == Key(k.image, k.kind);
    }
  }

  predicate Clear(f: Upload, touched: set<nat>) {
    forall a :: a in f.ids ==> a !in touched
  }

  /** A step that touches only some images keeps the invariant once those are accounted for. */
  lemma Framed(w: World, w': World, touched: set<nat>)
    requires Inv(w) && Grows(w, w') && ImagesOk(w'.images)
    requires forall a :: a !in touched ==> Untouched(w, w', a)
    requires forall a :: a in touched ==> IdOk(w', a)
    requires forall u :: u in w'.uploads ==>
      UploadOk(w', u, w'.uploads[u])
      || (u in w.uploads && w.uploads[u] == w'.uploads[u] && Clear(w.uploads[u], touched))
    requires forall d :: d in w'.deletions ==>
      DeletionOk(w', d) || (d in w.deletions && d.image !in touched)
    ensures Inv(w')
  {
    hide ImagesOk, IdOk, UploadOk, DeletionOk, Untouched, Grows;
    forall a ensures IdOk(w', a) {
      if a !in touched {
        IdFrame(w, w', a);
      }
    }
    forall u | u in w'.uploads ensures UploadOk(w', u, w'.uploads[u]) {
      if !UploadOk(w', u, w'.uploads[u]) {
        UploadFrame(w, w', u, w.uploads[u]);
      }
    }
    forall d | d in w'.deletions ensures DeletionOk(w', d) {
      if !DeletionOk(w', d) {
        DeletionFrame(w, w', d);
      }
    }
  }
}
