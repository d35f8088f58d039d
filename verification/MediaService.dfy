/** Upload and deletion of tour images against the table and the fake object store, run without rivals. */
module MediaService {
  import opened Rows
  import opened Media
  import opened MediaStorage
  import opened ObjectStorage
  import opened MediaTables
  import opened MediaAnswers

  /** A processed file: its fresh identifier and its three renditions. */
  datatype Processed = Processed(id: nat, original: Bytes, card: Bytes, thumbnail: Bytes)

  datatype Object = Object(key: Key, body: Bytes)

  function Ids(files: seq<Processed>): (ids: seq<nat>)
    ensures |ids| == |files| && forall i :: 0 <= i < |ids| ==> ids[i] == files[i].id
  {
    seq(|files|, i requires 0 <= i < |files| => files[i].id)
  }

  /** The objects of an upload in the order they are put. */
  function ObjectsOf(files: seq<Processed>): seq<Object> {
    if |files| == 0 then []
    else
      var file := files[|files| - 1];
      ObjectsOf(files[..|files| - 1])
      + [Object(Key(file.id, Original), file.original),
         Object(Key(file.id, Card), file.card),
         Object(Key(file.id, Thumbnail), file.thumbnail)]
  }

  function KeysIn(puts: seq<Object>): (keys: seq<Key>)
    ensures |keys| == |puts| && forall i :: 0 <= i < |keys| ==> keys[i] == puts[i].key
  {
    seq(|puts|, i requires 0 <= i < |puts| => puts[i].key)
  }

  /** The service puts the keys the storage machine expects, in its order. */
  lemma {:induction false} PutsFollowTheMachine(files: seq<Processed>)
    ensures KeysIn(ObjectsOf(files)) == UploadKeys(Ids(files))
  {
    if |files| > 0 {
      var n := |files| - 1;
      PutsFollowTheMachine(files[..n]);
      assert Ids(files)[..n] == Ids(files[..n]);
      assert KeysIn(ObjectsOf(files)) == KeysIn(ObjectsOf(files[..n])) + KeysOf(files[n].id);
    }
  }

  function PutAll(objects: map<Key, Bytes>, puts: seq<Object>): map<Key, Bytes> {
    if |puts| == 0 then objects
    else PutAll(objects, puts[..|puts| - 1])[puts[|puts| - 1].key := puts[|puts| - 1].body]
  }

  function KeySet(keys: seq<Key>): set<Key> {
    set k | k in keys
  }

  predicate Unused(objects: map<Key, Bytes>, ids: seq<nat>) {
    forall k :: k in objects ==> k.image !in ids
  }

  lemma {:induction false} ObjectsBelong(files: seq<Processed>, i: nat)
    requires i < |ObjectsOf(files)|
    ensures ObjectsOf(files)[i].key.image in Ids(files)
  {
    var n := |files| - 1;
    var front := ObjectsOf(files[..n]);
    if i < |front| {
      ObjectsBelong(files[..n], i);
      assert forall j :: 0 <= j < n ==> Ids(files[..n])[j] == Ids(files)[j];
    } else {
      assert Ids(files)[n] == files[n].id;
    }
  }

  /** A stored upload is found again, rendition by rendition. */
  lemma {:induction false} PutAllStores(objects: map<Key, Bytes>, files: seq<Processed>, i: nat)
    requires Distinct(Ids(files)) && i < |files|
    ensures var stored := PutAll(objects, ObjectsOf(files)); var file := files[i];
      && Key(file.id, Original) in stored && stored[Key(file.id, Original)] == file.original
      && Key(file.id, Card) in stored && stored[Key(file.id, Card)] == file.card
      && Key(file.id, Thumbnail) in stored && stored[Key(file.id, Thumbnail)] == file.thumbnail
  {
    var n := |files| - 1;
    var last, front := files[n], ObjectsOf(files[..n]);
    PutThree(objects, front, last);
    if i < n {
      assert forall j :: 0 <= j < n ==> Ids(files[..n])[j] == Ids(files)[j];
      PutAllStores(objects, files[..n], i);
      assert Ids(files)[i] != Ids(files)[n];
    }
  }

  lemma PutThree(objects: map<Key, Bytes>, front: seq<Object>, file: Processed)
    ensures PutAll(objects, front + [Object(Key(file.id, Original), file.original),
                                     Object(Key(file.id, Card), file.card),
                                     Object(Key(file.id, Thumbnail), file.thumbnail)])
            == PutAll(objects, front)[Key(file.id, Original) := file.original]
                                     [Key(file.id, Card) := file.card]
                                     [Key(file.id, Thumbnail) := file.thumbnail]
  {
    var a, b, c := Object(Key(file.id, Original), file.original), Object(Key(file.id, Card), file.card),
                   Object(Key(file.id, Thumbnail), file.thumbnail);
    assert front + [a, b, c] == front + [a] + [b] + [c];
    PutOne(objects, front, a);
    PutOne(objects, front + [a], b);
    PutOne(objects, front + [a] + [b], c);
  }

  lemma PutOne(objects: map<Key, Bytes>, puts: seq<Object>, last: Object)
    ensures PutAll(objects, puts + [last]) == PutAll(objects, puts)[last.key := last.body]
  {
    assert (puts + [last])[..|puts|] == puts;
  }

  /** Deleting what was put under unused keys brings the store back. */
  lemma {:induction false} UndoneStore(objects: map<Key, Bytes>, puts: seq<Object>, keys: seq<Key>)
    requires |keys| == |puts| && forall i :: 0 <= i < |puts| ==> keys[i] == puts[i].key && keys[i] !in objects
    ensures PutAll(objects, puts) - KeySet(keys) == objects
  {
    if |puts| > 0 {
      var n := |puts| - 1;
      UndoneStore(objects, puts[..n], keys[..n]);
      assert KeySet(keys) == KeySet(keys[..n]) + {keys[n]};
    }
  }

  class Service {
    const table: ImageTable
    const storage: FakeObjectStorage

    constructor (table: ImageTable, storage: FakeObjectStorage)
      ensures this.table == table && this.storage == storage
    {
      this.table, this.storage := table, storage;
    }

    /** Deletes the given keys, last first, and stops at the first failure. */
    method Compensate(keys: seq<Key>) returns (compensated: bool)
      modifies storage`objects, storage`deletes
      ensures compensated ==> storage.objects == old(storage.objects) - KeySet(keys)
      ensures old(storage.DeletesWork()) ==> compensated
      ensures !compensated ==>
        exists i :: 0 < i <= |keys| && storage.objects == old(storage.objects) - KeySet(keys[i..])
      ensures storage.objects.Keys <= old(storage.objects).Keys
    {
      ghost var was := storage.objects;
      ghost var sound := storage.DeletesWork();
      var i := |keys|;
      while i > 0
        invariant 0 <= i <= |keys|
        invariant storage.objects == was - KeySet(keys[i..])
        invariant sound ==> storage.DeletesWork()
      {
        assert KeySet(keys[i - 1..]) == KeySet(keys[i..]) + {keys[i - 1]};
        var ok := storage.Delete(keys[i - 1]);
        if !ok {
          return false;
        }
        i := i - 1;
      }
      assert keys[0..] == keys;
      return true;
    }

    /** Puts the objects in order and stops at the first failure. */
    method PutObjects(puts: seq<Object>) returns (uploaded: seq<Key>, ok: bool)
      modifies storage`objects, storage`puts
      ensures |uploaded| <= |puts| && forall i :: 0 <= i < |uploaded| ==> uploaded[i] == puts[i].key
      ensures storage.objects == PutAll(old(storage.objects), puts[..|uploaded|])
      ensures ok ==> |uploaded| == |puts|
      ensures !ok ==> storage.failPutAt == Some(storage.puts)
    {
      ghost var was := storage.objects;
      uploaded := [];
      while |uploaded| < |puts|
        invariant |uploaded| <= |puts| && forall i :: 0 <= i < |uploaded| ==> uploaded[i] == puts[i].key
        invariant storage.objects == PutAll(was, puts[..|uploaded|])
      {
        var next := puts[|uploaded|];
        var stored := storage.Put(next.key, next.body);
        if !stored {
          return uploaded, false;
        }
        assert puts[..|uploaded| + 1] == puts[..|uploaded|] + [next];
        PutOne(was, puts[..|uploaded|], next);
        uploaded := uploaded + [next.key];
      }
      return uploaded, true;
    }

    /** Publishes every image with its three objects, or reports the failure of a put; then, unless a
        delete fails as well, nothing of the upload is left in the table or in the store. */
    method Upload(t: nat, files: seq<Processed>) returns (r: MediaResult<seq<nat>>)
      requires ImagesOk(table.images)
      requires Fresh(table.images, Ids(files)) && Unused(storage.objects, Ids(files))
      modifies table`images, storage`objects, storage`puts, storage`deletes
      ensures r.Done? ==> var reserved := Media.Reserve(old(table.images), table.tours, t, Ids(files));
        && 1 <= |files| <= MAX_FILES && reserved.Done?
        && r.value == Ids(files)
        && table.images == Activate(reserved.value, Members(Ids(files)))
        && storage.objects == PutAll(old(storage.objects), ObjectsOf(files))
      ensures r.Refused? ==>
        if r.error == StorageFailed then
          && storage.failPutAt == Some(storage.puts)
          && (old(storage.DeletesWork()) ==>
                table.images == old(table.images) && storage.objects == old(storage.objects))
          && (table.images == old(table.images)
              || Done(table.images) == Media.Reserve(old(table.images), table.tours, t, Ids(files)))
        else
          && table.images == old(table.images) && storage.objects == old(storage.objects)
          && r.error == (if |files| == 0 || |files| > MAX_FILES then WrongFileCount
                         else if t !in table.tours then TourNotFound else LimitExceeded)
          && (r.error == LimitExceeded ==> |Counted(old(table.images), t)| + |files| > 10)
    {
      hide ImagesOk, Fresh, Reserved, PutAll, ObjectsOf, RemovePending, Counted, FollowedBy;
      if |files| == 0 || |files| > MAX_FILES {
        return Refused(WrongFileCount);
      }
      var ids := Ids(files);
      ghost var was, stored := table.images, storage.objects;
      ReserveExactly(was, table.tours, t, ids);
      var reserved := table.Reserve(t, ids);
      if reserved.Refused? {
        return Refused(reserved.error);
      }
      ReserveKeeps(was, table.tours, t, ids);
      WithdrawUndoesReserve(was, table.tours, t, ids);
      var puts := ObjectsOf(files);
      var uploaded, ok := PutObjects(puts);
      if !ok {
        UploadedUnused(stored, files, uploaded);
        UndoneStore(stored, puts[..|uploaded|], uploaded);
        var compensated := Compensate(uploaded);
        if compensated {
          var _ := table.RemovePendingUploads(t, set a | a in ids);
        }
        return Refused(StorageFailed);
      }
      assert puts[..|uploaded|] == puts;
      var published := table.Activate(t, Members(ids));
      return Done(ids);
    }

    /** Hides the image, deletes its three objects and only then its row. */
    method Delete(t: nat, id: nat) returns (r: MediaResult<()>)
      requires ImagesOk(table.images)
      modifies table`images, storage`objects, storage`deletes
      ensures match Media.MarkPendingDelete(old(table.images), table.tours, t, id)
        case Refused(e) =>
          r == Refused(e) && table.images == old(table.images) && storage.objects == old(storage.objects)
        case Done(hidden) =>
          && (r.Done? ==>
                table.images == DeleteRow(hidden, t, id)
                && storage.objects == old(storage.objects) - KeySet(KeysOf(id)))
          && (r.Refused? ==>
                && r.error == StorageFailed && table.images == hidden
                && storage.failDeleteAt == Some(storage.deletes)
                && exists i :: 0 <= i < 3 && storage.objects == old(storage.objects) - KeySet(KeysOf(id)[..i]))
    {
      ghost var stored := storage.objects;
      var marked := table.MarkPendingDelete(t, id);
      if marked.Refused? {
        return Refused(marked.error);
      }
      ghost var hidden := table.images;
      var keys := KeysOf(id);
      var i := 0;
      while i < |keys|
        invariant 0 <= i <= |keys| && table.images == hidden
        invariant storage.objects == stored - KeySet(keys[..i])
      {
        var ok := storage.Delete(keys[i]);
        if !ok {
          return Refused(StorageFailed);
        }
        assert KeySet(keys[..i + 1]) == KeySet(keys[..i]) + {keys[i]};
        i := i + 1;
      }
      assert keys[..i] == keys;
      var deleted := table.DeleteRow(t, id);
      return Done(());
    }
  }

  lemma UploadedUnused(objects: map<Key, Bytes>, files: seq<Processed>, uploaded: seq<Key>)
    requires Unused(objects, Ids(files)) && |uploaded| <= |ObjectsOf(files)|
    requires forall i :: 0 <= i < |uploaded| ==> uploaded[i] == ObjectsOf(files)[i].key
    ensures forall i :: 0 <= i < |uploaded| ==> uploaded[i] !in objects
  {
    forall i | 0 <= i < |uploaded| ensures uploaded[i] !in objects {
      ObjectsBelong(files, i);
    }
  }
}
