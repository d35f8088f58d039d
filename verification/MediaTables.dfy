/** The transactions of the media service, statement by statement, over the image table. */
module MediaTables {
  import opened Rows
  import opened Positions
  import opened Media
  import opened MediaStorage

  // --- the order in which a query returns rows ---

  /** `order` lists the keys of `pos` once each, by position. */
  ghost predicate ByPosition(order: seq<nat>, pos: map<nat, nat>) {
    && Distinct(order)
    && (forall a :: a in order <==> a in pos)
    && (forall i, j :: 0 <= i < j < |order| ==> pos[order[i]] <= pos[order[j]])
  }

  lemma {:induction false} LowestExists(pos: map<nat, nat>, rest: set<nat>)
    requires rest != {} && rest <= pos.Keys
    ensures exists a :: a in rest && forall b :: b in rest ==> pos[a] <= pos[b]
  {
    var a :| a in rest;
    if rest != {a} {
      LowestExists(pos, rest - {a});
      var b :| b in rest - {a} && forall c :: c in rest - {a} ==> pos[b] <= pos[c];
      var low := if pos[a] < pos[b] then a else b;
      assert forall c :: c in rest ==> pos[low] <= pos[c];
    }
  }

  /** ORDER BY position ASC. */
  method Ordered(pos: map<nat, nat>) returns (order: seq<nat>)
    ensures ByPosition(order, pos)
  {
    order := [];
    var rest := pos.Keys;
    while rest != {}
      invariant rest <= pos.Keys && Distinct(order)
      invariant forall a :: a in order <==> a in pos && a !in rest
      invariant forall i, j :: 0 <= i < j < |order| ==> pos[order[i]] <= pos[order[j]]
      invariant forall i, b :: 0 <= i < |order| && b in rest ==> pos[order[i]] <= pos[b]
    {
      LowestExists(pos, rest);
      var a :| a in rest && forall b :: b in rest ==> pos[a] <= pos[b];
      order, rest := order + [a], rest - {a};
    }
  }

  // --- single updates against the unique index ---

  /** The unique index on tour and position has room, and the position is one the table allows. */
  predicate Accepts(images: Images, id: nat, position: nat)
    requires id in images
  {
    && 1 <= position <= MAX_FILES
    && forall b :: b in images && b != id && images[b].tour == images[id].tour ==>
         images[b].position != Some(position)
  }

  /** What the closing loop has made of the rows once it has visited `done`. */
  function PartlyClosed(images: Images, removed: nat, done: set<nat>): Images {
    map a | a in images :: if a in done then Closed(images[a], removed) else images[a]
  }

  lemma PartlyClosedPositions(images: Images, t: nat, removed: nat, done: set<nat>)
    requires forall a :: a in done ==> a in images && images[a].tour == t
    ensures PositionsOf(PartlyClosed(images, removed, done), t) == PartlyShifted(PositionsOf(images, t), removed, done)
  {
  }

  /** The next update of the closing loop meets no row in its way. */
  lemma ClosingStepAccepted(images: Images, t: nat, removed: nat, done: set<nat>, id: nat)
    requires var pos := PositionsOf(images, t);
      && Injective(pos) && removed !in pos.Values && removed >= 1
      && id in pos && pos[id] > removed && pos[id] <= MAX_FILES
      && done <= pos.Keys && LowestFirst(pos, done + {id})
    ensures Accepts(PartlyClosed(images, removed, done), id, PositionsOf(images, t)[id] - 1)
  {
    var pos, now := PositionsOf(images, t), PartlyClosed(images, removed, done);
    var next := PartlyShifted(pos, removed, done + {id});
    PartlyShiftedInjective(pos, removed, done + {id});
    PartlyClosedPositions(images, t, removed, done);
    forall b | b in now && b != id && now[b].tour == now[id].tour
      ensures now[b].position != Some(pos[id] - 1)
    {
      if now[b].position.Some? {
        assert b in pos && now[b].position.value == next[b];
        assert next[b] != next[id];
      }
    }
  }

  class ImageTable {
    var images: Images
    var tours: set<nat>

    constructor (tours: set<nat>)
      ensures images == map[] && this.tours == tours
    {
      images := map[];
      this.tours := tours;
    }

    /** UPDATE of one row's position; the table rejects what its index or its check forbids. */
    method SetPosition(id: nat, position: nat) returns (accepted: bool)
      requires id in images
      modifies `images
      ensures accepted <==> Accepts(old(images), id, position)
      ensures images == if accepted then old(images)[id := old(images)[id].(position := Some(position))]
                        else old(images)
    {
      accepted := Accepts(images, id, position);
      if accepted {
        images := images[id := images[id].(position := Some(position))];
      }
    }

    /** Moves every visible row above the removed position down, one update at a time from the lowest
        up; no update is ever rejected. */
    method CompactPositions(t: nat, removed: nat) returns (accepted: bool)
      requires PositionedOk(images) && removed >= 1
      requires Injective(PositionsOf(images, t)) && removed !in PositionsOf(images, t).Values
      requires forall a :: a in PositionsOf(images, t) ==> PositionsOf(images, t)[a] <= MAX_FILES
      modifies `images
      ensures accepted && images == CloseGap(old(images), t, removed)
    {
      hide Accepts, PartlyClosed, CloseGap, PositionedOk, Injective, ByPosition, Members, Closed;
      accepted := true;
      ghost var was := images;
      var order := Ordered(PositionsOf(images, t));
      var i := 0;
      ClosingStarts(was, removed, order);
      while i < |order|
        invariant 0 <= i <= |order|
        invariant accepted && images == PartlyClosed(was, removed, Members(order[..i]))
      {
        var id := order[i];
        ClosingStep(was, t, removed, order, i);
        if images[id].position.Some? && images[id].position.value > removed {
          var ok := SetPosition(id, images[id].position.value - 1);
          accepted := accepted && ok;
        }
        i := i + 1;
      }
      ClosingEnds(was, t, removed, order);
    }

    method Reserve(t: nat, ids: seq<nat>) returns (r: MediaResult<seq<nat>>)
      modifies `images
      ensures match Media.Reserve(old(images), tours, t, ids)
        case Done(rows) => r == Done(ids) && images == rows
        case Refused(e) => r == Refused(e) && images == old(images)
    {
      if t !in tours {
        return Refused(TourNotFound);
      }
      var existing := |Visible(images, t)|;
      if existing + |ids| > MAX_FILES {
        return Refused(LimitExceeded);
      }
      ghost var was := images;
      var i := 0;
      while i < |ids|
        invariant 0 <= i <= |ids| && images == Reserved(was, t, ids[..i], existing)
      {
        assert ids[..i + 1][..i] == ids[..i];
        images := images[ids[i] := Image(t, Some(existing + i + 1), PendingUpload)];
        i := i + 1;
      }
      assert ids[..i] == ids;
      return Done(ids);
    }

    method MarkPendingDelete(t: nat, id: nat) returns (r: MediaResult<nat>)
      requires ImagesOk(images)
      modifies `images
      ensures match Media.MarkPendingDelete(old(images), tours, t, id)
        case Done(rows) => r == Done(id) && images == rows
        case Refused(e) => r == Refused(e) && images == old(images)
    {
      if t !in tours {
        return Refused(TourNotFound);
      }
      if id !in images || images[id].tour != t {
        return Refused(ImageNotFound);
      }
      if images[id].state == PendingUpload {
        return Refused(UploadPending);
      }
      if images[id].state == Active {
        ghost var was := images;
        HidingOpensOneGap(was, id);
        var removedPosition := images[id].position.value;
        images := images[id := images[id].(state := PendingDelete, position := None)];
        var accepted := CompactPositions(t, removedPosition);
      }
      return Done(id);
    }

    method RemovePendingUploads(t: nat, ids: set<nat>) returns (r: MediaResult<()>)
      requires ImagesOk(images)
      modifies `images
      ensures match RemovePending(old(images), tours, t, ids)
        case Done(rows) => r == Done(()) && images == rows
        case Refused(e) => r == Refused(e) && images == old(images)
    {
      hide ImagesOk, GapsOpen, Injective, PositionsOf, PositionedOk, CloseGap, Ascending, Sorted, Freed;
      if t !in tours {
        return Refused(TourNotFound);
      }
      ghost var was := images;
      var gaps := Sorted(Freed(PositionsOf(images, t), ids), MAX_FILES);
      images := images - ids;
      RemovalOpensGaps(was, t, ids);
      ghost var n := |PositionsOf(was, t)|;
      var k := |gaps|;
      while k > 0
        invariant 0 <= k <= |gaps| && n >= |gaps| - k
        invariant Ascending(gaps[..k])
        invariant GapsOpen(images, t, n - (|gaps| - k), gaps[..k])
        invariant CloseGaps(images, t, gaps[..k]) == CloseGaps(was - ids, t, gaps)
      {
        var front := gaps[..k];
        assert front[..k - 1] == gaps[..k - 1];
        HighestGapCloses(images, t, n - (|gaps| - k), front);
        var accepted := CompactPositions(t, gaps[k - 1]);
        k := k - 1;
      }
      return Done(());
    }

    method Activate(t: nat, ids: set<nat>) returns (r: MediaResult<()>)
      modifies `images
      ensures if t in tours then r == Done(()) && images == Media.Activate(old(images), ids)
              else r == Refused(TourNotFound) && images == old(images)
    {
      if t !in tours {
        return Refused(TourNotFound);
      }
      images := map a | a in images :: if a in ids then images[a].(state := Active) else images[a];
      return Done(());
    }

    method DeleteRow(t: nat, id: nat) returns (r: MediaResult<()>)
      modifies `images
      ensures if t in tours then r == Done(()) && images == Media.DeleteRow(old(images), t, id)
              else r == Refused(TourNotFound) && images == old(images)
    {
      if t !in tours {
        return Refused(TourNotFound);
      }
      if id in images && images[id].tour == t && images[id].state == PendingDelete {
        images := images - {id};
      }
      return Done(());
    }
  }

  lemma HidingOpensOneGap(images: Images, id: nat)
    requires ImagesOk(images) && id in images && images[id].state == Active
    ensures images[id].position.Some? && images[id].position.value >= 1
    ensures var hidden := Hidden(images, id); var pos := PositionsOf(hidden, images[id].tour);
      && PositionedOk(hidden) && Injective(pos) && images[id].position.value !in pos.Values
      && (forall a :: a in pos ==> pos[a] <= MAX_FILES)
  {
    var pos := PositionsOf(images, images[id].tour);
    assert NumberingOk(pos) && id in pos;
    forall a | a in pos ensures 1 <= pos[a] <= MAX_FILES {
      assert pos[a] in pos.Values;
    }
    HiddenPositions(images, id, images[id].tour);
  }

  /** The tour's rows stand on 1..n except for the gaps still to be closed. */
  ghost predicate GapsOpen(images: Images, t: nat, n: nat, gaps: seq<nat>) {
    PositionedOk(images) && n <= MAX_FILES && Gapped(PositionsOf(images, t), n, Elements(gaps))
  }

  lemma RemovalOpensGaps(images: Images, t: nat, ids: set<nat>)
    requires ImagesOk(images)
    ensures var gaps := Sorted(Freed(PositionsOf(images, t), ids), MAX_FILES);
      && |gaps| <= |PositionsOf(images, t)| && Ascending(gaps[..|gaps|])
      && GapsOpen(images - ids, t, |PositionsOf(images, t)|, gaps[..|gaps|])
      && gaps[..|gaps|] == gaps
  {
    var pos := PositionsOf(images, t);
    assert NumberingOk(pos);
    var gaps := Sorted(Freed(pos, ids), MAX_FILES);
    WithoutPositions(images, ids, t);
    RemovingOpensGaps(pos, |pos|, ids);
    assert gaps[..|gaps|] == gaps;
    assert Elements(gaps) == Freed(pos, ids) by {
      assert Freed(pos, ids) <= UpTo(|pos|);
    }
    GapsFit(|pos|, gaps);
  }

  lemma HighestGapCloses(images: Images, t: nat, n: nat, gaps: seq<nat>)
    requires GapsOpen(images, t, n, gaps) && Ascending(gaps) && |gaps| > 0
    ensures var g, pos := gaps[|gaps| - 1], PositionsOf(images, t);
      && PositionedOk(images) && g >= 1 && Injective(pos) && g !in pos.Values
      && (forall a :: a in pos ==> pos[a] <= MAX_FILES)
      && n >= 1
      && GapsOpen(CloseGap(images, t, g), t, n - 1, gaps[..|gaps| - 1])
      && Ascending(gaps[..|gaps| - 1])
  {
    var g, pos := gaps[|gaps| - 1], PositionsOf(images, t);
    HighestLast(gaps);
    assert g in UpTo(n) && Injective(pos) && g !in pos.Values;
    forall a | a in pos ensures pos[a] <= MAX_FILES {
      assert pos[a] in pos.Values;
    }
    hide Gapped, PositionsOf, PositionedOk, CloseGap, Ascending, Elements, Shift;
    ShiftCloses(pos, n, Elements(gaps), g);
    CloseGapPositions(images, t, g, t);
  }

  lemma ClosingStarts(was: Images, removed: nat, order: seq<nat>)
    ensures PartlyClosed(was, removed, Members(order[..0])) == was
  {
  }

  lemma ClosingEnds(was: Images, t: nat, removed: nat, order: seq<nat>)
    requires PositionedOk(was) && ByPosition(order, PositionsOf(was, t))
    ensures PartlyClosed(was, removed, Members(order[..|order|])) == CloseGap(was, t, removed)
  {
    assert order[..|order|] == order;
    VisiblePositions(was, t);
    assert Members(order) == Visible(was, t);
  }

  /** One visit of the closing loop: the row still stands where it stood, and its update is accepted. */
  lemma ClosingStep(was: Images, t: nat, removed: nat, order: seq<nat>, i: nat)
    requires ByPosition(order, PositionsOf(was, t)) && i < |order| && removed >= 1
    requires Injective(PositionsOf(was, t)) && removed !in PositionsOf(was, t).Values
    requires forall a :: a in PositionsOf(was, t) ==> PositionsOf(was, t)[a] <= MAX_FILES
    ensures var id, now := order[i], PartlyClosed(was, removed, Members(order[..i]));
      && id in now && now[id] == was[id] && now[id].position.Some?
      && (if now[id].position.value > removed
          then Accepts(now, id, now[id].position.value - 1)
               && now[id := now[id].(position := Some(now[id].position.value - 1))]
                  == PartlyClosed(was, removed, Members(order[..i + 1]))
          else now == PartlyClosed(was, removed, Members(order[..i + 1])))
  {
    var pos, id := PositionsOf(was, t), order[i];
    assert Members(order[..i + 1]) == Members(order[..i]) + {id};
    VisitsLowestFirst(order, pos, i);
    assert id !in Members(order[..i]) && id in pos;
    hide ByPosition, Injective, LowestFirst, Members;
    if pos[id] > removed {
      hide Accepts;
      ClosingStepAccepted(was, t, removed, Members(order[..i]), id);
    }
  }

  lemma VisitsLowestFirst(order: seq<nat>, pos: map<nat, nat>, i: nat)
    requires ByPosition(order, pos) && i < |order| && Injective(pos)
    ensures order[i] in pos && Members(order[..i]) <= pos.Keys
    ensures order[i] !in Members(order[..i])
    ensures LowestFirst(pos, Members(order[..i]) + {order[i]})
  {
    assert order[i] in order;
    forall a, b | a in pos && b in pos && a in Members(order[..i]) + {order[i]} && pos[b] < pos[a]
      ensures b in Members(order[..i])
    {
      var j :| 0 <= j <= i && order[j] == a;
      var k :| 0 <= k < |order| && order[k] == b;
      assert k < j;
      assert order[..i][k] == b;
    }
  }
}
