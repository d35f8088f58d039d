/** When the media service accepts a call and which image rows it writes, row by row. */
module MediaAnswers {
  import opened Rows
  import opened Positions
  import opened Media

  /** The images of the tour that customers or an unfinished upload count. */
  function Counted(images: Images, t: nat): set<nat> {
    set a | a in images && images[a].tour == t && (images[a].state == PendingUpload || images[a].state == Active)
  }

  /** New images are taken exactly for a known tour with room for them among ten; they follow the counted ones
      in the order given, pending.
    */
  lemma ReserveExactly(images: Images, tours: set<nat>, t: nat, ids: seq<nat>)
    requires Fresh(images, ids)
    ensures var r := Reserve(images, tours, t, ids); var n := |Counted(images, t)|;
      && (r.Done? <==> t in tours && n + |ids| <= 10)
      && (r.Refused? ==> r.error == if t in tours then LimitExceeded else TourNotFound)
      && (r.Done? ==> FollowedBy(images, t, ids, n, r.value))
  {
    assert Visible(images, t) == Counted(images, t);
    var n := |Visible(images, t)|;
    hide Visible, Counted, FollowedBy;
    ReservedInOrder(images, t, ids, n);
  }

  /** The old rows stand, and the new ones follow position `n` in the order given. */
  ghost predicate FollowedBy(images: Images, t: nat, ids: seq<nat>, n: nat, images': Images) {
    && (forall a :: a in images' <==> a in images || a in ids)
    && (forall a :: a in images ==> a in images' && images'[a] == images[a])
    && (forall k :: 0 <= k < |ids| ==>
          ids[k] in images' && images'[ids[k]] == Image(t, Some(n + k + 1), PendingUpload))
  }

  lemma {:induction false} ReservedInOrder(images: Images, t: nat, ids: seq<nat>, n: nat)
    requires Fresh(images, ids)
    ensures FollowedBy(images, t, ids, n, Reserved(images, t, ids, n))
  {
    if |ids| > 0 {
      var front, last := ids[..|ids| - 1], ids[|ids| - 1];
      ReservedInOrder(images, t, front, n);
      var before := Reserved(images, t, front, n);
      assert Reserved(images, t, ids, n) == before[last := Image(t, Some(n + |ids|), PendingUpload)];
      hide Reserved;
      OneMoreFollows(images, t, ids, n, before);
    }
  }

  lemma OneMoreFollows(images: Images, t: nat, ids: seq<nat>, n: nat, before: Images)
    requires Fresh(images, ids) && |ids| > 0 && FollowedBy(images, t, ids[..|ids| - 1], n, before)
    ensures FollowedBy(images, t, ids, n, before[ids[|ids| - 1] := Image(t, Some(n + |ids|), PendingUpload)])
  {
    var front, last := ids[..|ids| - 1], ids[|ids| - 1];
    assert ids == front + [last];
    assert last !in images && last !in front;
    forall k | 0 <= k < |front| ensures ids[k] in before && ids[k] != last
      && before[ids[k]] == Image(t, Some(n + k + 1), PendingUpload)
    {
      assert ids[k] == front[k];
    }
  }

  /** An active image is hidden and everyone above it moves down by one; a hidden one stays as it is; a pending
      one, and one of another tour, is refused.
    */
  lemma MarkExactly(images: Images, tours: set<nat>, t: nat, id: nat)
    requires ImagesOk(images)
    ensures var r := MarkPendingDelete(images, tours, t, id); var found := id in images && images[id].tour == t;
      && (r.Done? <==> t in tours && found && images[id].state != PendingUpload)
      && (r.Refused? ==>
            r.error == if t !in tours then TourNotFound else if found then UploadPending else ImageNotFound)
      && (r.Done? && images[id].state == PendingDelete ==> r.value == images)
      && (r.Done? && images[id].state == Active ==>
            && images[id].position.Some? && r.value.Keys == images.Keys
            && r.value[id] == Image(t, None, PendingDelete)
            && forall a :: a in images && a != id ==>
                 r.value[a] == if images[a].tour == t && images[a].position.Some?
                                  && images[a].position.value > images[id].position.value
                               then images[a].(position := Some(images[a].position.value - 1)) else images[a])
  {
    assert PositionedOk(images);
    hide NumberingOk;
  }

  /** Publishing turns exactly the given rows active. */
  lemma ActivateExactly(images: Images, ids: set<nat>)
    ensures var images' := Activate(images, ids);
      && images'.Keys == images.Keys
      && forall a :: a in images ==>
           images'[a] == Image(images[a].tour, images[a].position, if a in ids then Active else images[a].state)
  {
  }

  /** A row goes exactly when it is the tour's and hidden. */
  lemma DeleteRowExactly(images: Images, t: nat, id: nat)
    ensures var images' := DeleteRow(images, t, id);
      && (id in images' <==> id in images && !(images[id].tour == t && images[id].state == PendingDelete))
      && forall a :: a != id ==> (a in images' <==> a in images) && (a in images ==> images'[a] == images[a])
  {
  }

  /** How many of the withdrawn images stood below. */
  function Below(images: Images, t: nat, ids: set<nat>, p: nat): set<nat> {
    set a | a in ids && a in images && images[a].tour == t
            && images[a].position.Some? && images[a].position.value < p
  }

  /** A withdrawal drops the given rows; each survivor of the tour moves down by the withdrawn ones that stood
      below it; other tours and every other field stay.
    */
  lemma WithdrawExactly(images: Images, tours: set<nat>, t: nat, ids: set<nat>)
    requires ImagesOk(images) && t in tours && OwnRows(images, t, ids)
    ensures var r := RemovePending(images, tours, t, ids);
      && r.Done? && r.value.Keys == images.Keys - ids
      && forall a :: a in r.value ==>
           && a in images && r.value[a].tour == images[a].tour && r.value[a].state == images[a].state
           && r.value[a].position ==
                if images[a].tour == t && images[a].position.Some?
                then Some(images[a].position.value - |Below(images, t, ids, images[a].position.value)|)
                else images[a].position
  {
    var images' := RemovePending(images, tours, t, ids).value;
    RemovePendingKeeps(images, tours, t, ids);
    RemovePendingRenumbers(images, tours, t, ids);
    assert NumberingOk(PositionsOf(images, t)) && PositionedOk(images) && PositionedOk(images');
    hide RemovePending, ImagesOk, NumberingOk, SameOrder, Renumbered;
    forall a | a in images'
      ensures images'[a].position ==
                if images[a].tour == t && images[a].position.Some?
                then Some(images[a].position.value - |Below(images, t, ids, images[a].position.value)|)
                else images[a].position
    {
      if images[a].tour == t {
        if images[a].position.Some? {
          assert a in PositionsOf(images', t);
          SurvivorMoves(images, t, ids, a);
        }
      } else {
        OtherToursStand(images, tours, t, ids, a);
      }
    }
  }

  lemma OtherToursStand(images: Images, tours: set<nat>, t: nat, ids: set<nat>, a: nat)
    requires ImagesOk(images) && t in tours && OwnRows(images, t, ids)
    requires a in RemovePending(images, tours, t, ids).value && a in images && images[a].tour != t
    ensures RemovePending(images, tours, t, ids).value[a].position == images[a].position
  {
    var gaps := Sorted(Freed(PositionsOf(images, t), ids), MAX_FILES);
    var images' := CloseGaps(images - ids, t, gaps);
    var u := images[a].tour;
    assert PositionedOk(images);
    CloseGapsPositions(images - ids, t, gaps, u);
    CloseGapsOnlyPositions(images - ids, t, gaps);
    hide CloseGaps, Sorted, Freed;
    assert (images - ids)[a] == images[a];
    assert PositionsOf(images', u) == PositionsOf(images - ids, u);
    if images[a].position.Some? {
      assert a in PositionsOf(images - ids, u);
    } else {
      assert a !in PositionsOf(images - ids, u);
    }
  }

  /** The place of a survivor is its old position less the withdrawn ones below. */
  lemma SurvivorMoves(images: Images, t: nat, ids: set<nat>, a: nat)
    requires NumberingOk(PositionsOf(images, t)) && a in images && a !in ids
    requires images[a].tour == t && images[a].position.Some?
    ensures a in PositionsOf(images, t) - ids
    ensures Renumbered(PositionsOf(images, t) - ids)[a]
         == images[a].position.value - |Below(images, t, ids, images[a].position.value)|
  {
    var pos := PositionsOf(images, t);
    DenseIsRank(pos, |pos|, a);
    var below := Below(images, t, ids, images[a].position.value);
    assert NotAfter(pos, a) == NotAfter(pos - ids, a) + below;
    assert NotAfter(pos - ids, a) !! below;
  }
}
