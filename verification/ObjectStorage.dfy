/** The fake object store: a map of objects, with one put and one delete configured to fail. */
module ObjectStorage {
  import opened Rows
  import opened MediaStorage

  type Bytes = string

  class FakeObjectStorage {
    var objects: map<Key, Bytes>
    var failPutAt: Option<nat>
    var failDeleteAt: Option<nat>
    var puts: nat
    var deletes: nat

    constructor (failPutAt: Option<nat>, failDeleteAt: Option<nat>)
      ensures objects == map[] && puts == 0 && deletes == 0
      ensures this.failPutAt == failPutAt && this.failDeleteAt == failDeleteAt
    {
      objects, puts, deletes := map[], 0, 0;
      this.failPutAt, this.failDeleteAt := failPutAt, failDeleteAt;
    }

    /** The configured put fails and stores nothing; every other put replaces the object. */
    method Put(key: Key, body: Bytes) returns (ok: bool)
      modifies `objects, `puts
      ensures puts == old(puts) + 1
      ensures ok <==> failPutAt != Some(puts)
      ensures objects == if ok then old(objects)[key := body] else old(objects)
    {
      puts := puts + 1;
      if failPutAt == Some(puts) {
        return false;
      }
      objects := objects[key := body];
      return true;
    }

    /** The configured delete fails and removes nothing; deleting a missing object succeeds. */
    method Delete(key: Key) returns (ok: bool)
      modifies `objects, `deletes
      ensures deletes == old(deletes) + 1
      ensures ok <==> failDeleteAt != Some(deletes)
      ensures objects == if ok then old(objects) - {key} else old(objects)
    {
      deletes := deletes + 1;
      if failDeleteAt == Some(deletes) {
        return false;
      }
      objects := objects - {key};
      return true;
    }

    /** No delete from here on is the configured one. */
    predicate DeletesWork()
      reads this
    {
      failDeleteAt.None? || failDeleteAt.value <= deletes
    }
  }
}
