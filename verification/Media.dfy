/** Image rows of tours: the transactions of the media service and the numbering they keep. */
module Media {
  import opened Rows
  import opened Positions

  const MAX_FILES := 10

  datatype ImageState = PendingUpload | Active | PendingDelete

  datatype Image = Image(tour: nat, position: Option<nat>, state: ImageState)

  type Images = map<nat, Image>

  datatype MediaFailure =
    | WrongFileCount
    | TourNotFound
    | LimitExceeded
    | ImageNotFound
    | UploadPending
    | StorageFailed

  datatype MediaResult<+T> = Done(value: T) | Refused(error: MediaFailure)

  /** The rows a tour's numbering counts. */
  function Visible(images: Images, t: nat): set<nat> {
    set a | a in images && images[a].tour == t && images[a].state != PendingDelete
  }

  function PositionsOf(images: Images, t: nat): map<nat, nat> {
    map a | a in images && images[a].tour == t && images[a].position.Some? :: images[a].position.value
  }

  // --- the transactions ---

  /** Adds a pending row per image after the `existing` visible ones. */
  function Reserved(images: Images, t: nat, ids: seq<nat>, existing: nat): Images {
    if |ids| == 0 then images
    else Reserved(images, t, ids[..|ids| - 1], existing)
         [ids[|ids| - 1] := Image(t, Some(existing + |ids|), PendingUpload)]
  }

  function Reserve(images: Images, tours: set<nat>, t: nat, ids: seq<nat>): MediaResult<Images> {
    if t !in tours then Refused(TourNotFound)
    else if |Visible(images, t)| + |ids| > MAX_FILES then Refused(LimitExceeded)
    else Done(Reserved(images, t, ids, |Visible(images, t)|))
  }

  function Closed(row: Image, removed: nat): Image {
    if row.position.Some? && row.position.value > removed
    then row.(position := Some(row.position.value - 1)) else row
  }

  /** What one compaction makes of the rows: everyone above the removed position moves down. */
  function CloseGap(images: Images, t: nat, removed: nat): Images {
    map a | a in images :: if a in Visible(images, t) then Closed(images[a], removed) else images[a]
  }

  /** Closes gaps given in ascending order, the highest first. */
  function CloseGaps(images: Images, t: nat, gaps: seq<nat>): Images {
    if |gaps| == 0 then images
    else CloseGaps(CloseGap(images, t, gaps[|gaps| - 1]), t, gaps[..|gaps| - 1])
  }

  function PositionOrZero(row: Image): nat {
    if row.position.Some? then row.position.value else 0
  }

  function Hidden(images: Images, id: nat): Images
    requires id in images
  {
    images[id := images[id].(state := PendingDelete, position := None)]
  }

  function MarkPendingDelete(images: Images, tours: set<nat>, t: nat, id: nat): MediaResult<Images> {
    if t !in tours then Refused(TourNotFound)
    else if id !in images || images[id].tour != t then Refused(ImageNotFound)
    else match images[id].state
      case PendingUpload => Refused(UploadPending)
      case PendingDelete => Done(images)
      case Active =>
        Done(CloseGap(Hidden(images, id), t, PositionOrZero(images[id])))
  }

  function RemovePending(images: Images, tours: set<nat>, t: nat, ids: set<nat>): MediaResult<Images> {
    if t !in tours then Refused(TourNotFound)
    else Done(CloseGaps(images - ids, t, Sorted(Freed(PositionsOf(images, t), ids), MAX_FILES)))
  }

  function Activate(images: Images, ids: set<nat>): Images {
    map a | a in images :: if a in ids then images[a].(state := Active) else images[a]
  }

  function DeleteRow(images: Images, t: nat, id: nat): Images {
    if id in images && images[id].tour == t && images[id].state == PendingDelete
    then images - {id} else images
  }

  // --- what the transactions keep ---

  /** A row has a position exactly while it is visible. */
  ghost predicate PositionedOk(images: Images) {
    forall a :: a in images ==> (images[a].position.Some? <==> images[a].state != PendingDelete)
  }

  /** A tour's visible rows hold exactly the positions 1..n, and there are at most ten. */
  ghost predicate NumberingOk(pos: map<nat, nat>) {
    Dense(pos, |pos|) && |pos| <= MAX_FILES
  }

  ghost predicate ImagesOk(images: Images) {
    PositionedOk(images) && forall t :: NumberingOk(PositionsOf(images, t))
  }

  lemma VisiblePositions(images: Images, t: nat)
    requires PositionedOk(images)
    ensures Visible(images, t) == PositionsOf(images, t).Keys
    ensures |Visible(images, t)| == |PositionsOf(images, t)|
  {
    assert Visible(images, t) == PositionsOf(images, t).Keys;
    assert |PositionsOf(images, t).Keys| == |PositionsOf(images, t)|;
  }

  predicate Distinct(ids: seq<nat>) {
    forall i, j :: 0 <= i < j < |ids| ==> ids[i] != ids[j]
  }

  /** Identifiers a new upload draws: distinct and not in the table. */
  predicate Fresh(images: Images, ids: seq<nat>) {
    Distinct(ids) && forall i :: 0 <= i < |ids| ==> ids[i] !in images
  }

  lemma {:induction false} ReservedRows(images: Images, t: nat, ids: seq<nat>, existing: nat, a: nat)
    requires Fresh(images, ids)
    ensures a in Reserved(images, t, ids, existing) <==> a in images || a in ids
    ensures a in images ==> Reserved(images, t, ids, existing)[a] == images[a]
    ensures a in ids ==> var row := Reserved(images, t, ids, existing)[a];
      row.tour == t && row.state == PendingUpload && row.position.Some?
      && existing < row.position.value <= existing + |ids|
  {
    if |ids| > 0 {
      var front, last := ids[..|ids| - 1], ids[|ids| - 1];
      assert ids == front + [last];
      ReservedRows(images, t, front, existing, a);
    }
  }

  lemma AddedPosition(images: Images, t: nat, id: nat, p: nat, u: nat)
    requires id !in images
    ensures var images' := images[id := Image(t, Some(p), PendingUpload)];
      && PositionsOf(images', t) == PositionsOf(images, t)[id := p]
      && (u != t ==> PositionsOf(images', u) == PositionsOf(images, u))
  {
  }

  lemma ReservedLast(images: Images, t: nat, ids: seq<nat>, n: nat)
    requires Fresh(images, ids) && |ids| > 0
    ensures var front, last := ids[..|ids| - 1], ids[|ids| - 1];
      && Fresh(images, front)
      && last !in Reserved(images, t, front, n)
      && last !in PositionsOf(Reserved(images, t, front, n), t)
      && Reserved(images, t, ids, n)
         == Reserved(images, t, front, n)[last := Image(t, Some(n + |ids|), PendingUpload)]
  {
    ReservedRows(images, t, ids[..|ids| - 1], n, ids[|ids| - 1]);
  }

  lemma {:induction false} ReservedPositions(images: Images, t: nat, ids: seq<nat>, n: nat, u: nat)
    requires Fresh(images, ids) && Dense(PositionsOf(images, t), n)
    ensures Dense(PositionsOf(Reserved(images, t, ids, n), t), n + |ids|)
    ensures u != t ==> PositionsOf(Reserved(images, t, ids, n), u) == PositionsOf(images, u)
  {
    hide Dense, PositionsOf, Fresh;
    if |ids| > 0 {
      hide Reserved;
      var front, last := ids[..|ids| - 1], ids[|ids| - 1];
      ReservedLast(images, t, ids, n);
      var images' := Reserved(images, t, front, n);
      ReservedPositions(images, t, front, n, u);
      AddedPosition(images', t, last, n + |ids|, u);
      AppendKeepsDense(PositionsOf(images', t), n + |front|, last);
    }
  }

  lemma ReserveKeeps(images: Images, tours: set<nat>, t: nat, ids: seq<nat>)
    requires ImagesOk(images) && Fresh(images, ids) && Reserve(images, tours, t, ids).Done?
    ensures ImagesOk(Reserve(images, tours, t, ids).value)
  {
    var n := |Visible(images, t)|;
    VisiblePositions(images, t);
    var images' := Reserved(images, t, ids, n);
    assert PositionedOk(images') by {
      forall a | a in images' ensures images'[a].position.Some? <==> images'[a].state != PendingDelete {
        ReservedRows(images, t, ids, n, a);
      }
    }
    forall u ensures NumberingOk(PositionsOf(images', u)) {
      assert NumberingOk(PositionsOf(images, t)) && NumberingOk(PositionsOf(images, u));
      ReservedPositions(images, t, ids, n, u);
      if u == t {
        DenseCount(PositionsOf(images', t), n + |ids|);
      }
    }
  }

  /** Compaction of the rows is the shift of their positions; other tours do not move. */
  lemma CloseGapPositions(images: Images, t: nat, removed: nat, u: nat)
    requires PositionedOk(images)
    ensures PositionedOk(CloseGap(images, t, removed))
    ensures PositionsOf(CloseGap(images, t, removed), t) == Shift(PositionsOf(images, t), removed)
    ensures u != t ==> PositionsOf(CloseGap(images, t, removed), u) == PositionsOf(images, u)
  {
  }

  lemma {:induction false} CloseGapsPositions(images: Images, t: nat, gaps: seq<nat>, u: nat)
    requires PositionedOk(images)
    ensures PositionedOk(CloseGaps(images, t, gaps))
    ensures PositionsOf(CloseGaps(images, t, gaps), t) == CloseAll(PositionsOf(images, t), gaps)
    ensures u != t ==> PositionsOf(CloseGaps(images, t, gaps), u) == PositionsOf(images, u)
    decreases |gaps|
  {
    if |gaps| > 0 {
      CloseGapPositions(images, t, gaps[|gaps| - 1], u);
      hide CloseGap, PositionsOf, PositionedOk, Shift;
      CloseGapsPositions(CloseGap(images, t, gaps[|gaps| - 1]), t, gaps[..|gaps| - 1], u);
    }
  }

  /** Removing rows and closing their gaps is one renumbering of the survivors, in their old order. */
  lemma ClosingNumbers(pos: map<nat, nat>, gone: set<nat>)
    requires NumberingOk(pos)
    ensures var pos' := CloseAll(pos - gone, Sorted(Freed(pos, gone), MAX_FILES));
      NumberingOk(pos') && SameOrder(pos - gone, pos') && pos' == Renumbered(pos - gone)
  {
    var n, gaps := |pos|, Sorted(Freed(pos, gone), MAX_FILES);
    RemovingOpensGaps(pos, n, gone);
    assert Elements(gaps) == Freed(pos, gone) by {
      assert Freed(pos, gone) <= UpTo(n);
    }
    GapsFit(n, gaps);
    hide Dense, SameOrder, Gapped, Ascending, Elements, Freed, Sorted;
    CloseAllCloses(pos - gone, n, gaps);
    DenseCount(CloseAll(pos - gone, gaps), n - |gaps|);
    ClosingIsRenumbering(pos - gone, CloseAll(pos - gone, gaps), n - |gaps|);
  }

  /** Closing gaps changes nothing but positions. */
  ghost predicate OnlyPositions(images: Images, images': Images) {
    images.Keys == images'.Keys
    && forall a :: a in images ==> images'[a].tour == images[a].tour && images'[a].state == images[a].state
  }

  lemma {:induction false} CloseGapsOnlyPositions(images: Images, t: nat, gaps: seq<nat>)
    ensures OnlyPositions(images, CloseGaps(images, t, gaps))
    decreases |gaps|
  {
    if |gaps| > 0 {
      assert OnlyPositions(images, CloseGap(images, t, gaps[|gaps| - 1]));
      CloseGapsOnlyPositions(CloseGap(images, t, gaps[|gaps| - 1]), t, gaps[..|gaps| - 1]);
    }
  }

  lemma WithoutPositions(images: Images, gone: set<nat>, u: nat)
    ensures PositionsOf(images - gone, u) == PositionsOf(images, u) - gone
    ensures PositionedOk(images) ==> PositionedOk(images - gone)
  {
  }

  /** Withdrawing reservations is one renumbering of the survivors, and keeps their order. */
  lemma RemovePendingRenumbers(images: Images, tours: set<nat>, t: nat, ids: set<nat>)
    requires ImagesOk(images) && t in tours
    ensures var images' := RemovePending(images, tours, t, ids).value;
      && PositionsOf(images', t) == Renumbered(PositionsOf(images, t) - ids)
      && SameOrder(PositionsOf(images, t) - ids, PositionsOf(images', t))
      && NumberingOk(PositionsOf(images', t))
  {
    var pos := PositionsOf(images, t);
    assert NumberingOk(pos) && PositionedOk(images);
    hide ImagesOk, PositionsOf, NumberingOk, SameOrder, Renumbered, CloseGaps, PositionedOk, Sorted, Freed;
    WithoutPositions(images, ids, t);
    CloseGapsPositions(images - ids, t, Sorted(Freed(pos, ids), MAX_FILES), t);
    ClosingNumbers(pos, ids);
  }

  /** The rows named belong to the tour. */
  ghost predicate OwnRows(images: Images, t: nat, ids: set<nat>) {
    forall a :: a in ids && a in images ==> images[a].tour == t
  }

  lemma RemovePendingKeeps(images: Images, tours: set<nat>, t: nat, ids: set<nat>)
    requires ImagesOk(images) && t in tours && OwnRows(images, t, ids)
    ensures ImagesOk(RemovePending(images, tours, t, ids).value)
    ensures OnlyPositions(images - ids, RemovePending(images, tours, t, ids).value)
  {
    var gaps := Sorted(Freed(PositionsOf(images, t), ids), MAX_FILES);
    var images' := CloseGaps(images - ids, t, gaps);
    CloseGapsOnlyPositions(images - ids, t, gaps);
    CloseGapsPositions(images - ids, t, gaps, t);
    forall u ensures NumberingOk(PositionsOf(images', u)) {
      if u == t {
        RemovePendingRenumbers(images, tours, t, ids);
      } else {
        assert NumberingOk(PositionsOf(images, u));
        assert PositionsOf(images - ids, u) == PositionsOf(images, u);
        CloseGapsPositions(images - ids, t, gaps, u);
      }
    }
  }

  lemma FreedOne(pos: map<nat, nat>, id: nat)
    requires id in pos
    ensures Freed(pos, {id}) == {pos[id]}
  {
    var gone := {id};
    var lost := map a | a in pos && a in gone :: pos[a];
    assert lost[id] == pos[id];
    assert forall v :: v in lost.Values ==> v == pos[id];
  }

  /** Closing the one gap a removed image leaves renumbers the survivors, in their old order. */
  lemma ClosingOne(pos: map<nat, nat>, id: nat)
    requires NumberingOk(pos) && id in pos
    ensures var pos' := Shift(pos - {id}, pos[id]);
      NumberingOk(pos') && SameOrder(pos - {id}, pos') && pos' == Renumbered(pos - {id})
  {
    var n, pos' := |pos|, Shift(pos - {id}, pos[id]);
    RemovingOpensGaps(pos, n, {id});
    FreedOne(pos, id);
    ShiftCloses(pos - {id}, n, {pos[id]}, pos[id]);
    assert Dense(pos', n - 1);
    hide SameOrder, Gapped, Freed, Shift, Dense;
    DenseCount(pos', n - 1);
    ClosingIsRenumbering(pos - {id}, pos', n - 1);
  }

  lemma HiddenPositions(images: Images, id: nat, u: nat)
    requires PositionedOk(images) && id in images
    ensures PositionedOk(Hidden(images, id))
    ensures PositionsOf(Hidden(images, id), images[id].tour) == PositionsOf(images, images[id].tour) - {id}
    ensures u != images[id].tour ==> PositionsOf(Hidden(images, id), u) == PositionsOf(images, u)
  {
  }

  /** Hiding an active image renumbers the survivors in one go and keeps their order. */
  lemma MarkRenumbers(images: Images, tours: set<nat>, t: nat, id: nat)
    requires ImagesOk(images) && MarkPendingDelete(images, tours, t, id).Done?
    requires images[id].state == Active
    ensures var images' := MarkPendingDelete(images, tours, t, id).value;
      && PositionsOf(images', t) == Renumbered(PositionsOf(images, t) - {id})
      && SameOrder(PositionsOf(images, t) - {id}, PositionsOf(images', t))
      && NumberingOk(PositionsOf(images', t))
  {
    var pos := PositionsOf(images, t);
    assert NumberingOk(pos) && PositionedOk(images) && id in pos;
    assert PositionOrZero(images[id]) == pos[id];
    hide ImagesOk, PositionsOf, NumberingOk, SameOrder, Renumbered, CloseGap, PositionedOk, Shift;
    HiddenPositions(images, id, t);
    CloseGapPositions(Hidden(images, id), t, pos[id], t);
    ClosingOne(pos, id);
  }

  lemma MarkKeepsTour(images: Images, tours: set<nat>, t: nat, id: nat, u: nat)
    requires ImagesOk(images) && MarkPendingDelete(images, tours, t, id).Done?
    ensures NumberingOk(PositionsOf(MarkPendingDelete(images, tours, t, id).value, u))
    ensures u != t ==> PositionsOf(MarkPendingDelete(images, tours, t, id).value, u) == PositionsOf(images, u)
  {
    assert NumberingOk(PositionsOf(images, u)) && PositionedOk(images);
    if images[id].state == Active {
      hide ImagesOk, PositionsOf, NumberingOk, CloseGap, PositionedOk;
      if u == t {
        MarkRenumbers(images, tours, t, id);
      } else {
        HiddenPositions(images, id, u);
        CloseGapPositions(Hidden(images, id), t, PositionOrZero(images[id]), u);
      }
    }
  }

  lemma MarkOnlyPositions(images: Images, tours: set<nat>, t: nat, id: nat)
    requires MarkPendingDelete(images, tours, t, id).Done?
    ensures OnlyPositions(images[id := images[id].(state := PendingDelete)],
                          MarkPendingDelete(images, tours, t, id).value)
  {
  }

  lemma MarkPositioned(images: Images, tours: set<nat>, t: nat, id: nat)
    requires PositionedOk(images) && MarkPendingDelete(images, tours, t, id).Done?
    ensures PositionedOk(MarkPendingDelete(images, tours, t, id).value)
  {
    hide PositionedOk, CloseGap;
    if images[id].state == Active {
      HiddenPositions(images, id, t);
      CloseGapPositions(Hidden(images, id), t, PositionOrZero(images[id]), t);
    }
  }

  lemma MarkKeeps(images: Images, tours: set<nat>, t: nat, id: nat)
    requires ImagesOk(images) && MarkPendingDelete(images, tours, t, id).Done?
    ensures ImagesOk(MarkPendingDelete(images, tours, t, id).value)
  {
    var images' := MarkPendingDelete(images, tours, t, id).value;
    MarkPositioned(images, tours, t, id);
    hide PositionedOk, NumberingOk, PositionsOf, MarkPendingDelete;
    forall u ensures NumberingOk(PositionsOf(images', u)) {
      MarkKeepsTour(images, tours, t, id, u);
    }
  }

  lemma ActivatePositions(images: Images, ids: set<nat>, t: nat)
    ensures PositionsOf(Activate(images, ids), t) == PositionsOf(images, t)
  {
  }

  lemma ActivateKeeps(images: Images, ids: set<nat>)
    requires ImagesOk(images)
    requires forall a :: a in ids && a in images ==> images[a].state != PendingDelete
    ensures ImagesOk(Activate(images, ids))
  {
    assert PositionedOk(Activate(images, ids));
    forall t ensures NumberingOk(PositionsOf(Activate(images, ids), t)) {
      hide NumberingOk;
      assert NumberingOk(PositionsOf(images, t));
      ActivatePositions(images, ids, t);
    }
  }

  lemma DeleteRowKeeps(images: Images, t: nat, id: nat)
    requires ImagesOk(images)
    ensures ImagesOk(DeleteRow(images, t, id))
    ensures forall u :: PositionsOf(DeleteRow(images, t, id), u) == PositionsOf(images, u)
  {
    forall u ensures PositionsOf(DeleteRow(images, t, id), u) == PositionsOf(images, u)
      && NumberingOk(PositionsOf(DeleteRow(images, t, id), u))
    {
      assert NumberingOk(PositionsOf(images, u));
      assert PositionsOf(DeleteRow(images, t, id), u) == PositionsOf(images, u);
    }
  }

  // --- a withdrawn reservation leaves no trace ---

  lemma {:induction false} CloseGapsAbove(images: Images, t: nat, gaps: seq<nat>)
    requires forall a, i :: a in PositionsOf(images, t) && 0 <= i < |gaps| ==> PositionsOf(images, t)[a] <= gaps[i]
    ensures CloseGaps(images, t, gaps) == images
    decreases |gaps|
  {
    if |gaps| > 0 {
      var g := gaps[|gaps| - 1];
      forall a | a in images ensures CloseGap(images, t, g)[a] == images[a] {
        if a in Visible(images, t) && images[a].position.Some? {
          assert PositionsOf(images, t)[a] <= g;
        }
      }
      assert CloseGap(images, t, g) == images;
      CloseGapsAbove(images, t, gaps[..|gaps| - 1]);
    }
  }

  /** Withdrawing a reservation right after making it restores every row of every tour. */
  lemma WithdrawUndoesReserve(images: Images, tours: set<nat>, t: nat, ids: seq<nat>)
    requires ImagesOk(images) && Fresh(images, ids) && Reserve(images, tours, t, ids).Done?
    ensures RemovePending(Reserve(images, tours, t, ids).value, tours, t, set a | a in ids) == Done(images)
  {
    var n, gone := |Visible(images, t)|, set a | a in ids;
    var images' := Reserved(images, t, ids, n);
    VisiblePositions(images, t);
    assert images' - gone == images by {
      forall a ensures a in images' - gone <==> a in images {
        ReservedRows(images, t, ids, n, a);
      }
      forall a | a in images ensures (images' - gone)[a] == images[a] {
        ReservedRows(images, t, ids, n, a);
      }
    }
    var pos, freed := PositionsOf(images, t), Freed(PositionsOf(images', t), gone);
    forall a | a in pos ensures pos[a] <= n {
      assert NumberingOk(pos);
      assert pos[a] in pos.Values;
    }
    forall g | g in freed ensures n < g {
      var a :| a in PositionsOf(images', t) && a in gone && PositionsOf(images', t)[a] == g;
      ReservedRows(images, t, ids, n, a);
    }
    var gaps := Sorted(freed, MAX_FILES);
    forall i | 0 <= i < |gaps| ensures gaps[i] > n {
      assert gaps[i] in gaps;
    }
    CloseGapsAbove(images, t, gaps);
  }
}
