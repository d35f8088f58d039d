/** The cleanup script's renumbering of an affected tour, and its agreement with the service's gap closing. */
module MediaCleanup {
  import opened Rows
  import opened Positions
  import opened Media
  import opened MediaStorage
  import opened MediaTables

  /** Every visible row of the tour at its place among them. */
  function RenumberRows(images: Images, t: nat): Images {
    PartlyRenumbered(images, t, PositionsOf(images, t).Keys)
  }

  function PartlyRenumbered(images: Images, t: nat, done: set<nat>): Images {
    map a | a in images ::
      if a in done && a in PositionsOf(images, t)
      then images[a].(position := Some(Rank(PositionsOf(images, t), a))) else images[a]
  }

  /** What the table's unique index and check guarantee of a tour's positions. */
  ghost predicate TableOk(images: Images, t: nat) {
    Injective(PositionsOf(images, t))
    && forall a :: a in PositionsOf(images, t) ==> 1 <= PositionsOf(images, t)[a] <= MAX_FILES
  }

  lemma {:induction false} MembersCount(ids: seq<nat>)
    requires Distinct(ids)
    ensures |Members(ids)| == |ids|
  {
    if |ids| > 0 {
      var front, last := ids[..|ids| - 1], ids[|ids| - 1];
      MembersCount(front);
      assert Members(ids) == Members(front) + {last};
      assert last !in front;
    }
  }

  /** A row listed at index `i` has `i` rows before it. */
  lemma RankOfListed(order: seq<nat>, pos: map<nat, nat>, i: nat)
    requires ByPosition(order, pos) && Injective(pos) && i < |order|
    ensures order[i] in pos && Rank(pos, order[i]) == i + 1
  {
    assert order[i] in order;
    forall b ensures b in NotAfter(pos, order[i]) <==> b in Members(order[..i + 1]) {
      if b in NotAfter(pos, order[i]) {
        var k :| 0 <= k < |order| && order[k] == b;
        assert k <= i;
        assert order[..i + 1][k] == b;
      }
      if b in Members(order[..i + 1]) {
        var k :| 0 <= k <= i && order[k] == b;
        assert order[k] in order;
      }
    }
    assert NotAfter(pos, order[i]) == Members(order[..i + 1]);
    MembersCount(order[..i + 1]);
  }

  /** Distinct positions in ascending order run ahead of their places. */
  lemma {:induction false} PlaceAtMostPosition(order: seq<nat>, pos: map<nat, nat>, i: nat)
    requires ByPosition(order, pos) && Injective(pos) && i < |order|
    requires forall a :: a in pos ==> pos[a] >= 1
    ensures order[i] in pos && i + 1 <= pos[order[i]]
  {
    assert order[i] in order;
    if i > 0 {
      PlaceAtMostPosition(order, pos, i - 1);
    }
  }

  /** Renumbering from the lowest position up never runs into a row it has not moved yet. */
  lemma RenumberAccepted(was: Images, t: nat, order: seq<nat>, i: nat)
    requires TableOk(was, t) && ByPosition(order, PositionsOf(was, t)) && i < |order|
    ensures var now := PartlyRenumbered(was, t, Members(order[..i]));
      order[i] in now && Accepts(now, order[i], i + 1)
  {
    var pos, now, id := PositionsOf(was, t), PartlyRenumbered(was, t, Members(order[..i])), order[i];
    PlaceAtMostPosition(order, pos, i);
    forall b | b in now && b != id && now[b].tour == t && now[b].position.Some?
      ensures now[b].position.value != i + 1
    {
      assert b in pos;
      var k :| 0 <= k < |order| && order[k] == b;
      RankOfListed(order, pos, k);
      if k < i {
        assert order[..i][k] == b;
      } else {
        assert b !in Members(order[..i]) by { NotYetListed(order, i, k); }
        PlaceAtMostPosition(order, pos, k);
      }
    }
  }

  lemma NotYetListed(order: seq<nat>, i: nat, k: nat)
    requires Distinct(order) && i <= k < |order|
    ensures order[k] !in Members(order[..i])
  {
  }

  lemma RenumberStep(was: Images, t: nat, order: seq<nat>, i: nat)
    requires TableOk(was, t) && ByPosition(order, PositionsOf(was, t)) && i < |order|
    ensures var id, now := order[i], PartlyRenumbered(was, t, Members(order[..i]));
      && id in now && now[id] == was[id] && now[id].position.Some?
      && Accepts(now, id, i + 1)
      && now[id := now[id].(position := Some(i + 1))] == PartlyRenumbered(was, t, Members(order[..i + 1]))
  {
    assert Injective(PositionsOf(was, t));
    hide PartlyRenumbered, TableOk, Accepts, PositionsOf;
    RenumberAccepted(was, t, order, i);
    RankOfListed(order, PositionsOf(was, t), i);
    NotYetListed(order, i, i);
    assert Members(order[..i + 1]) == Members(order[..i]) + {order[i]};
    hide Members, ByPosition, Rank;
    OneMoreRenumbered(was, t, Members(order[..i]), order[i]);
  }

  lemma OneMoreRenumbered(was: Images, t: nat, done: set<nat>, id: nat)
    requires id in PositionsOf(was, t) && id !in done
    ensures var now := PartlyRenumbered(was, t, done);
      && id in now && now[id] == was[id] && now[id].position.Some?
      && now[id := now[id].(position := Some(Rank(PositionsOf(was, t), id)))] == PartlyRenumbered(was, t, done + {id})
  {
  }

  lemma RenumberEnds(was: Images, t: nat, order: seq<nat>)
    requires ByPosition(order, PositionsOf(was, t))
    ensures PartlyRenumbered(was, t, Members(order[..0])) == was
    ensures PartlyRenumbered(was, t, Members(order[..|order|])) == RenumberRows(was, t)
  {
    assert order[..|order|] == order;
    assert Members(order) == PositionsOf(was, t).Keys;
  }

  /** Puts every visible row of the tour at its place in one pass; no update is ever rejected. */
  method Renumber(table: ImageTable, t: nat) returns (accepted: bool)
    requires TableOk(table.images, t)
    modifies table`images
    ensures accepted && table.images == RenumberRows(old(table.images), t)
  {
    hide TableOk, ByPosition, Accepts, PartlyRenumbered, RenumberRows, Members, PositionsOf;
    accepted := true;
    ghost var was := table.images;
    var order := Ordered(PositionsOf(table.images, t));
    var index := 0;
    RenumberEnds(was, t, order);
    while index < |order|
      invariant 0 <= index <= |order|
      invariant accepted && table.images == PartlyRenumbered(was, t, Members(order[..index]))
    {
      var id := order[index];
      RenumberStep(was, t, order, index);
      if table.images[id].position != Some(index + 1) {
        var ok := table.SetPosition(id, index + 1);
        accepted := accepted && ok;
      } else {
        assert table.images[id := table.images[id].(position := Some(index + 1))] == table.images;
      }
      index := index + 1;
    }
  }

  lemma RenumberedPositions(images: Images, t: nat, u: nat)
    ensures PositionsOf(RenumberRows(images, t), t) == Renumbered(PositionsOf(images, t))
    ensures u != t ==> PositionsOf(RenumberRows(images, t), u) == PositionsOf(images, u)
    ensures OnlyPositions(images, RenumberRows(images, t))
    ensures PositionedOk(images) ==> PositionedOk(RenumberRows(images, t))
  {
  }

  /** Rows are settled by their tour, state and position. */
  lemma SameTable(images: Images, images': Images)
    requires OnlyPositions(images, images') && PositionedOk(images) && PositionedOk(images')
    requires forall t :: PositionsOf(images, t) == PositionsOf(images', t)
    ensures images == images'
  {
    forall a | a in images ensures images[a] == images'[a] {
      assert PositionsOf(images, images[a].tour) == PositionsOf(images', images[a].tour);
      if images[a].position.Some? {
        assert a in PositionsOf(images, images[a].tour);
      }
    }
  }

  lemma GapClosingPositions(images: Images, tours: set<nat>, t: nat, gone: set<nat>, u: nat)
    requires ImagesOk(images) && t in tours && OwnRows(images, t, gone)
    ensures PositionsOf(RemovePending(images, tours, t, gone).value, u)
            == PositionsOf(RenumberRows(images - gone, t), u)
  {
    RemovePendingRenumbers(images, tours, t, gone);
    assert PositionedOk(images);
    RenumberedPositions(images - gone, t, u);
    WithoutPositions(images, gone, t);
    if u != t {
      CloseGapsPositions(images - gone, t, Sorted(Freed(PositionsOf(images, t), gone), MAX_FILES), u);
    }
  }

  /** Closing the gaps one by one, the highest first, ends in the very table one pass of the script makes. */
  lemma GapClosingIsOnePass(images: Images, tours: set<nat>, t: nat, gone: set<nat>)
    requires ImagesOk(images) && t in tours && OwnRows(images, t, gone)
    ensures RemovePending(images, tours, t, gone).value == RenumberRows(images - gone, t)
  {
    var images', renumbered := RemovePending(images, tours, t, gone).value, RenumberRows(images - gone, t);
    RemovePendingKeeps(images, tours, t, gone);
    assert PositionedOk(images) && PositionedOk(images');
    WithoutPositions(images, gone, t);
    RenumberedPositions(images - gone, t, t);
    hide ImagesOk, PositionedOk, PositionsOf, RemovePending, RenumberRows;
    forall u ensures PositionsOf(images', u) == PositionsOf(renumbered, u) {
      GapClosingPositions(images, tours, t, gone, u);
    }
    SameTable(images', renumbered);
  }
}
