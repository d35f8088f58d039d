/** Positions of a tour's visible images: dense numbering, closing gaps, and renumbering in one pass. */
module Positions {

  /** The positions 1..n. */
  function UpTo(n: nat): (s: set<nat>)
    ensures |s| == n
    ensures forall p :: p in s <==> 1 <= p <= n
  {
    if n == 0 then {} else UpTo(n - 1) + {n}
  }

  /** No two images share a position. */
  predicate Injective(pos: map<nat, nat>) {
    forall a, b :: a in pos && b in pos && a != b ==> pos[a] != pos[b]
  }

  /** The taken positions are exactly 1..n without the gaps. */
  ghost predicate Gapped(pos: map<nat, nat>, n: nat, gaps: set<nat>) {
    Injective(pos) && pos.Values == UpTo(n) - gaps && gaps <= UpTo(n)
  }

  ghost predicate Dense(pos: map<nat, nat>, n: nat) {
    Injective(pos) && pos.Values == UpTo(n)
  }

  /** Everyone above the removed position moves down by one. */
  function Shift(pos: map<nat, nat>, removed: nat): map<nat, nat> {
    map a | a in pos :: if pos[a] > removed then pos[a] - 1 else pos[a]
  }

  ghost predicate SameOrder(pos: map<nat, nat>, pos': map<nat, nat>) {
    && pos.Keys == pos'.Keys
    && forall a, b :: a in pos && b in pos ==> (pos[a] < pos[b] <==> pos'[a] < pos'[b])
  }

  lemma SameOrderTransitive(pos: map<nat, nat>, mid: map<nat, nat>, pos': map<nat, nat>)
    requires SameOrder(pos, mid) && SameOrder(mid, pos')
    ensures SameOrder(pos, pos')
  {
    forall a, b | a in pos && b in pos ensures pos[a] < pos[b] <==> pos'[a] < pos'[b] {
      assert a in mid && b in mid;
    }
  }

  /** Closing a free position keeps positions apart and survivors in order. */
  lemma ShiftKeepsOrder(pos: map<nat, nat>, g: nat)
    requires Injective(pos) && g !in pos.Values
    ensures Injective(Shift(pos, g)) && SameOrder(pos, Shift(pos, g))
  {
    forall a | a in pos ensures pos[a] != g {
      assert pos[a] in pos.Values;
    }
  }

  /** Closing the highest gap leaves the other gaps where they were. */
  lemma ShiftValues(pos: map<nat, nat>, n: nat, gaps: set<nat>, g: nat)
    requires Gapped(pos, n, gaps) && g in gaps && forall h :: h in gaps ==> h <= g
    ensures Shift(pos, g).Values == UpTo(n - 1) - (gaps - {g})
  {
    var pos' := Shift(pos, g);
    forall p | p in pos'.Values ensures p in UpTo(n - 1) - (gaps - {g}) {
      var a :| a in pos' && pos'[a] == p;
      assert pos[a] in pos.Values;
    }
    forall p | p in UpTo(n - 1) - (gaps - {g}) ensures p in pos'.Values {
      var q := if p < g then p else p + 1;
      assert q in pos.Values;
      var a :| a in pos && pos[a] == q;
      assert pos'[a] == p;
    }
  }

  lemma ShiftCloses(pos: map<nat, nat>, n: nat, gaps: set<nat>, g: nat)
    requires Gapped(pos, n, gaps) && g in gaps && forall h :: h in gaps ==> h <= g
    ensures Gapped(Shift(pos, g), n - 1, gaps - {g})
    ensures SameOrder(pos, Shift(pos, g))
  {
    hide SameOrder;
    ShiftKeepsOrder(pos, g);
    ShiftValues(pos, n, gaps, g);
  }

  /** The rows `done` were already moved down; the loop visits rows from the lowest position up. */
  function PartlyShifted(pos: map<nat, nat>, removed: nat, done: set<nat>): map<nat, nat> {
    map a | a in pos :: if a in done && pos[a] > removed then pos[a] - 1 else pos[a]
  }

  ghost predicate LowestFirst(pos: map<nat, nat>, done: set<nat>) {
    forall a, b :: a in pos && b in pos && a in done && pos[b] < pos[a] ==> b in done
  }

  /** After every single update of the closing loop the positions are still apart. */
  lemma PartlyShiftedInjective(pos: map<nat, nat>, removed: nat, done: set<nat>)
    requires Injective(pos) && removed !in pos.Values && LowestFirst(pos, done)
    ensures Injective(PartlyShifted(pos, removed, done))
  {
    forall a | a in pos ensures pos[a] != removed {
      assert pos[a] in pos.Values;
    }
  }

  /** Positions held by the images in `gone`. */
  function Freed(pos: map<nat, nat>, gone: set<nat>): set<nat> {
    (map a | a in pos && a in gone :: pos[a]).Values
  }

  lemma RemovingOpensGaps(pos: map<nat, nat>, n: nat, gone: set<nat>)
    requires Dense(pos, n)
    ensures Gapped(pos - gone, n, Freed(pos, gone))
  {
    var rest, lost := pos - gone, map a | a in pos && a in gone :: pos[a];
    forall p | p in lost.Values ensures p in UpTo(n) && p !in rest.Values {
      var b :| b in lost && lost[b] == p;
      assert pos[b] in pos.Values;
    }
    forall p | p in rest.Values ensures p in UpTo(n) {
      var b :| b in rest && rest[b] == p;
      assert pos[b] in pos.Values;
    }
    forall b | b in pos && b in gone ensures pos[b] in lost.Values {
      assert lost[b] == pos[b];
    }
    forall p | p in UpTo(n) - lost.Values ensures p in rest.Values {
      assert p in pos.Values;
      var b :| b in pos && pos[b] == p;
      assert rest[b] == p;
    }
  }

  lemma AppendedValues(pos: map<nat, nat>, a: nat, p: nat)
    requires a !in pos
    ensures pos[a := p].Values == pos.Values + {p}
  {
    var pos' := pos[a := p];
    forall q | q in pos.Values ensures q in pos'.Values {
      var b :| b in pos && pos[b] == q;
      assert pos'[b] == q;
    }
    assert pos'[a] == p;
    forall q | q in pos'.Values ensures q in pos.Values + {p} {
      var b :| b in pos' && pos'[b] == q;
      assert b != a ==> pos[b] == q;
    }
  }

  /** The next position is free. */
  lemma AppendKeepsDense(pos: map<nat, nat>, n: nat, a: nat)
    requires Dense(pos, n) && a !in pos
    ensures Dense(pos[a := n + 1], n + 1)
  {
    forall b | b in pos ensures pos[b] != n + 1 {
      assert pos[b] in pos.Values;
    }
    AppendedValues(pos, a, n + 1);
  }

  // --- counting ---

  lemma ValuesWithout(pos: map<nat, nat>, a: nat)
    requires Injective(pos) && a in pos
    ensures (pos - {a}).Values == pos.Values - {pos[a]} && pos[a] in pos.Values
  {
    var rest := pos - {a};
    forall v | v in pos.Values - {pos[a]} ensures v in rest.Values {
      var b :| b in pos && pos[b] == v;
      assert rest[b] == v;
    }
    forall v | v in rest.Values ensures v in pos.Values - {pos[a]} {
      var b :| b in rest && rest[b] == v;
      assert pos[b] == v;
    }
  }

  lemma {:induction false} ValuesCount(pos: map<nat, nat>)
    requires Injective(pos)
    ensures |pos.Values| == |pos|
    decreases |pos|
  {
    if pos != map[] {
      var a :| a in pos;
      ValuesWithout(pos, a);
      ValuesCount(pos - {a});
    } else {
      assert pos.Values == {};
    }
  }

  /** A dense numbering has exactly as many images as positions. */
  lemma DenseCount(pos: map<nat, nat>, n: nat)
    requires Dense(pos, n)
    ensures |pos| == n
  {
    ValuesCount(pos);
  }

  // --- one-pass renumbering ---

  /** The images that stand no later than `a`. */
  function NotAfter(pos: map<nat, nat>, a: nat): set<nat>
    requires a in pos
  {
    set b | b in pos && pos[b] <= pos[a]
  }

  /** Place of an image among the images, counted from one. */
  function Rank(pos: map<nat, nat>, a: nat): nat
    requires a in pos
  {
    |NotAfter(pos, a)|
  }

  /** Every image at its place among the images. */
  function Renumbered(pos: map<nat, nat>): map<nat, nat> {
    map a | a in pos :: Rank(pos, a)
  }

  /** Keeping the order keeps everyone's place. */
  lemma SameOrderSameRank(pos: map<nat, nat>, pos': map<nat, nat>, a: nat)
    requires SameOrder(pos, pos') && a in pos
    ensures Rank(pos, a) == Rank(pos', a)
  {
    assert NotAfter(pos, a) == NotAfter(pos', a);
  }

  lemma LowPartDense(pos: map<nat, nat>, n: nat, a: nat, low: map<nat, nat>)
    requires Dense(pos, n) && a in pos
    requires low == map b | b in NotAfter(pos, a) :: pos[b]
    ensures Dense(low, pos[a])
  {
    assert pos[a] in pos.Values;
    forall p | p in UpTo(pos[a]) ensures p in low.Values {
      assert p in pos.Values;
      var b :| b in pos && pos[b] == p;
      assert low[b] == p;
    }
    forall p | p in low.Values ensures p in UpTo(pos[a]) {
      var b :| b in low && low[b] == p;
      assert pos[b] in pos.Values;
    }
  }

  /** In a dense numbering everyone already stands at their place. */
  lemma DenseIsRank(pos: map<nat, nat>, n: nat, a: nat)
    requires Dense(pos, n) && a in pos
    ensures Rank(pos, a) == pos[a]
  {
    var low := map b | b in NotAfter(pos, a) :: pos[b];
    LowPartDense(pos, n, a, low);
    hide Dense;
    DenseCount(low, pos[a]);
    assert low.Keys == NotAfter(pos, a);
  }

  /** Whatever closes all gaps in order ends in the one-pass renumbering. */
  lemma ClosingIsRenumbering(pos: map<nat, nat>, pos': map<nat, nat>, n: nat)
    requires SameOrder(pos, pos') && Dense(pos', n)
    ensures pos' == Renumbered(pos)
  {
    assert pos.Keys == pos'.Keys;
    forall a | a in pos ensures pos'[a] == Renumbered(pos)[a] {
      hide SameOrder, Dense;
      SameOrderSameRank(pos, pos', a);
      DenseIsRank(pos', n, a);
    }
  }

  // --- several gaps, the highest first ---

  /** Closes gaps given in ascending order, the highest first. */
  function CloseAll(pos: map<nat, nat>, gaps: seq<nat>): map<nat, nat> {
    if |gaps| == 0 then pos else CloseAll(Shift(pos, gaps[|gaps| - 1]), gaps[..|gaps| - 1])
  }

  predicate Ascending(gaps: seq<nat>) {
    forall i, j :: 0 <= i < j < |gaps| ==> gaps[i] < gaps[j]
  }

  function Elements(gaps: seq<nat>): set<nat> {
    set g | g in gaps
  }

  /** The members of `s` between 1 and `n` in ascending order. */
  function Sorted(s: set<nat>, n: nat): (r: seq<nat>)
    ensures forall p :: p in r <==> p in s && 1 <= p <= n
    ensures Ascending(r)
  {
    if n == 0 then []
    else
      var front := Sorted(s, n - 1);
      assert forall i :: 0 <= i < |front| ==> front[i] in front;
      if n in s then front + [n] else front
  }

  lemma HighestLast(gaps: seq<nat>)
    requires Ascending(gaps) && |gaps| > 0
    ensures gaps[|gaps| - 1] in Elements(gaps)
    ensures forall h :: h in Elements(gaps) ==> h <= gaps[|gaps| - 1]
    ensures Elements(gaps) - {gaps[|gaps| - 1]} == Elements(gaps[..|gaps| - 1])
    ensures Ascending(gaps[..|gaps| - 1])
  {
  }

  lemma {:induction false} GapsFit(n: nat, gaps: seq<nat>)
    requires Ascending(gaps) && Elements(gaps) <= UpTo(n)
    ensures |gaps| <= n
  {
    if |gaps| > 0 {
      HighestLast(gaps);
      var g := gaps[|gaps| - 1];
      var rest := Elements(gaps[..|gaps| - 1]);
      forall h | h in rest ensures h in UpTo(g - 1) {
        assert h in Elements(gaps) - {g};
      }
      GapsFit(g - 1, gaps[..|gaps| - 1]);
    }
  }

  lemma NoGapsLeft(pos: map<nat, nat>, n: nat, gaps: seq<nat>)
    requires Gapped(pos, n, Elements(gaps)) && |gaps| == 0
    ensures Dense(pos, n) && SameOrder(pos, pos)
  {
  }

  /** Closing every gap, the highest first, leaves a dense numbering in the old order. */
  lemma {:induction false} CloseAllCloses(pos: map<nat, nat>, n: nat, gaps: seq<nat>)
    requires Ascending(gaps) && Gapped(pos, n, Elements(gaps)) && |gaps| <= n
    ensures Dense(CloseAll(pos, gaps), n - |gaps|)
    ensures SameOrder(pos, CloseAll(pos, gaps))
    decreases |gaps|
  {
    hide Gapped, SameOrder, Dense, Ascending, Elements, UpTo, Shift, Injective;
    if |gaps| > 0 {
      var g, rest := gaps[|gaps| - 1], gaps[..|gaps| - 1];
      HighestLast(gaps);
      ShiftCloses(pos, n, Elements(gaps), g);
      CloseAllCloses(Shift(pos, g), n - 1, rest);
      SameOrderTransitive(pos, Shift(pos, g), CloseAll(pos, gaps));
    } else {
      NoGapsLeft(pos, n, gaps);
    }
  }
}
