/** What every run of tours, teams and users guarantees. */
module TeamSafety {
  import Rows
  import opened Teams

  /** Whatever ran, a live assignment names a user who still has exactly its role, on a live tour. */
  lemma {:induction false} RolesAgreeWithAssignments(steps: seq<Step>, i: nat)
    ensures var s := Run(NOBODY, steps);
      Live(s, i) ==>
        && s.assignments[i].user in s.users
        && s.users[s.assignments[i].user] == s.assignments[i].role
        && LiveTour(s, s.assignments[i].tour)
  {
    RunKeeps(steps);
    var s := Run(NOBODY, steps);
    if Live(s, i) {
      assert AssignmentOk(s, s.assignments[i]);
    }
  }

  lemma OnlyMember(set1: set<nat>, i: nat, j: nat)
    requires |set1| == 1 && i in set1 && j in set1
    ensures i == j
  {
    if i != j {
      assert {i, j} <= set1;
      SubsetCount({i, j}, set1);
    }
  }

  lemma {:induction false} SubsetCount(small: set<nat>, large: set<nat>)
    requires small <= large
    ensures |small| <= |large|
  {
    if small != {} {
      var a :| a in small;
      SubsetCount(small - {a}, large - {a});
    }
  }

  /** Whatever ran, a live tour has one lead and at most four supporters, and they are all different people. */
  lemma TeamsAreWhole(steps: seq<Step>, t: nat)
    requires LiveTour(Run(NOBODY, steps), t)
    ensures var s := Run(NOBODY, steps);
      && (exists l :: l in Serving(s, t, LeadGuide))
      && (forall l, m :: l in Serving(s, t, LeadGuide) && m in Serving(s, t, LeadGuide) ==> l == m)
      && |Serving(s, t, Guide)| <= 4
      && (forall i, j :: i in Serving(s, t, Guide)
                         && j in Serving(s, t, Guide) + Serving(s, t, LeadGuide) && i != j ==>
            s.assignments[i].user != s.assignments[j].user)
  {
    RunKeeps(steps);
    var s := Run(NOBODY, steps);
    assert TeamOk(s, t);
    var leads := Serving(s, t, LeadGuide);
    assert leads != {};
    var lead :| lead in leads;
    forall l, m | l in leads && m in leads ensures l == m {
      OnlyMember(leads, l, m);
    }
    forall i, j | i in Serving(s, t, Guide) && j in Serving(s, t, Guide) + leads && i != j
      ensures s.assignments[i].user != s.assignments[j].user
    {
      var low, high := if i < j then i else j, if i < j then j else i;
      assert s.assignments[low].user != s.assignments[high].user;
    }
  }

  /** Whatever ran, a deleted tour has no live assignment. */
  lemma {:induction false} DeletedToursAreUnstaffed(steps: seq<Step>, t: nat, i: nat)
    requires var s := Run(NOBODY, steps); t < |s.tours| && s.tours[t].deleted
    requires var s := Run(NOBODY, steps); i < |s.assignments| && s.assignments[i].tour == t
    ensures Run(NOBODY, steps).assignments[i].ended
  {
    RunKeeps(steps);
    var s := Run(NOBODY, steps);
    assert AssignmentOk(s, s.assignments[i]);
  }

  /** Whatever ran, no two tours share a slug, deleted or not. */
  lemma {:induction false} SlugsNeverClash(steps: seq<Step>, t: nat, u: nat)
    requires t < u < |Run(NOBODY, steps).tours|
    ensures Run(NOBODY, steps).tours[t].slug != Run(NOBODY, steps).tours[u].slug
  {
    RunKeeps(steps);
  }

  // --- guards seen through the invariant ---

  /** While somebody serves, the only role they can be given is the one they have. */
  lemma ServingFixesRole(s: State, actor: nat, target: nat, role: Role, i: nat)
    requires Inv(s) && Live(s, i) && s.assignments[i].user == target
    ensures ChangeRole(s, actor, target, role).Done? <==> actor != target && role == s.users[target]
    ensures ChangeRole(s, actor, target, role).Done? ==> ChangeRole(s, actor, target, role).value == s
  {
    assert AssignmentOk(s, s.assignments[i]);
    if role == s.users[target] {
      forall j | 0 <= j < |s.assignments| && Live(s, j) && s.assignments[j].user == target
        ensures s.assignments[j].role == role
      {
        assert AssignmentOk(s, s.assignments[j]);
      }
      assert s.users[target := role] == s.users;
    }
  }

  /** A user can be deleted exactly when no row of any age names them. */
  lemma DeletableExactly(s: State, actor: nat, target: nat, administrative: bool)
    ensures DeleteUser(s, actor, target, administrative).Done?
       <==> !(administrative && actor == target) && target in s.users
            && !EverAssigned(s, target) && target !in s.booked && target !in s.reviewers
  {
  }

  lemma AssignmentsStay(s: State, step: Step, u: nat)
    requires EverAssigned(s, u)
    ensures EverAssigned(Apply(s, step), u)
  {
    var i :| 0 <= i < |s.assignments| && s.assignments[i].user == u;
    var s' := Apply(s, step);
    assert i < |s'.assignments| && s'.assignments[i].user == u;
  }

  /** Ending every assignment is not enough: whoever served once can never be deleted again. */
  lemma {:induction false} ServedOnceStaysForever(steps: seq<Step>, n: nat, u: nat)
    requires n <= |steps| && EverAssigned(Run(NOBODY, steps[..n]), u)
    ensures EverAssigned(Run(NOBODY, steps), u) && u in Run(NOBODY, steps).users
  {
    hide Run, Apply, EverAssigned, Inv;
    if n < |steps| {
      var front, last := steps[..|steps| - 1], steps[|steps| - 1];
      assert front[..n] == steps[..n];
      ServedOnceStaysForever(front, n, u);
      RunLast(steps);
      AssignmentsStay(Run(NOBODY, front), last, u);
    } else {
      assert steps[..n] == steps;
    }
    RunKeeps(steps);
    AssignedExists(Run(NOBODY, steps), u);
  }

  lemma RunLast(steps: seq<Step>)
    requires steps != []
    ensures Run(NOBODY, steps) == Apply(Run(NOBODY, steps[..|steps| - 1]), steps[|steps| - 1])
  {
  }

  lemma AssignedExists(s: State, u: nat)
    requires Inv(s) && EverAssigned(s, u)
    ensures u in s.users
  {
    var i :| 0 <= i < |s.assignments| && s.assignments[i].user == u;
    assert AssignmentOk(s, s.assignments[i]);
  }

  // --- slugs ---

  /** The loop takes the first free candidate, and gives up only when all hundred are taken. */
  lemma {:induction false} FirstFreeIsFirst(tours: seq<TourRow>, base: string, from: nat)
    requires 1 <= from <= MAX_SUFFIX + 1
    ensures match FirstFree(tours, base, from)
      case Some(k) =>
        && from <= k <= MAX_SUFFIX && !SlugTaken(tours, SlugAt(base, k))
        && forall j :: from <= j < k ==> SlugTaken(tours, SlugAt(base, j))
      case None => forall j :: from <= j <= MAX_SUFFIX ==> SlugTaken(tours, SlugAt(base, j))
    decreases MAX_SUFFIX + 1 - from
  {
    hide SlugTaken, SlugAt;
    if from <= MAX_SUFFIX {
      FirstFreeIsFirst(tours, base, from + 1);
    }
  }

  function Nobody(suffix: nat): Rows.Option<Team> {
    Rows.None
  }

  /** Without rivals the loop creates under the first free candidate, or gives up. */
  lemma {:induction false} AloneTakesFirstFree(s: State, base: string, team: Team, from: nat)
    requires 1 <= from <= MAX_SUFFIX + 1
    ensures CreateFrom(s, base, team, from, Nobody) ==
      match FirstFree(s.tours, base, from)
      case None => Attempt(s, Refused(SlugExhausted))
      case Some(k) =>
        (match CreateWithSlug(s, SlugAt(base, k), team)
         case Done(s') => Attempt(s', Done(()))
         case Refused(e) => Attempt(s, Refused(e)))
    decreases MAX_SUFFIX + 1 - from
  {
    hide SlugTaken, SlugAt, ReplaceTeam;
    if from <= MAX_SUFFIX {
      AloneTakesFirstFree(s, base, team, from + 1);
      ConflictMeansTaken(s, SlugAt(base, from), team);
    }
  }

  /** An insert conflicts exactly when the slug is taken, and only a successful one adds a tour. */
  lemma ConflictMeansTaken(s: State, slug: string, team: Team)
    ensures CreateWithSlug(s, slug, team) == Refused(SlugConflict) <==> SlugTaken(s.tours, slug)
    ensures CreateWithSlug(s, slug, team).Done? ==>
      && CreateWithSlug(s, slug, team).value.tours == s.tours + [TourRow(slug, false)]
      && SlugTaken(CreateWithSlug(s, slug, team).value.tours, slug)
  {
    var s1 := s.(tours := s.tours + [TourRow(slug, false)]);
    assert s1.tours[|s.tours|].slug == slug;
  }

  lemma TakenStays(tours: seq<TourRow>, tours': seq<TourRow>, slug: string)
    requires tours <= tours' && SlugTaken(tours, slug)
    ensures SlugTaken(tours', slug)
  {
    var t :| 0 <= t < |tours| && tours[t].slug == slug;
    assert tours'[t].slug == slug;
  }

  /** Whatever rivals do: a successful create adds its tour last, under a candidate all of whose
      predecessors are taken by then, and the loop gives up only with all candidates taken.
    */
  lemma {:induction false} RacedCreate(s: State, base: string, team: Team, from: nat, rival: nat -> Rows.Option<Team>)
    requires 1 <= from <= MAX_SUFFIX + 1
    ensures var attempt := CreateFrom(s, base, team, from, rival); var tours := attempt.state.tours;
      && s.tours <= tours
      && (attempt.result.Done? ==>
            && |tours| > |s.tours|
            && exists k :: from <= k <= MAX_SUFFIX && tours[|tours| - 1] == TourRow(SlugAt(base, k), false)
                 && forall j :: from <= j < k ==> SlugTaken(tours, SlugAt(base, j)))
      && (attempt.result == Refused(SlugExhausted) ==>
            forall j :: from <= j <= MAX_SUFFIX ==> SlugTaken(tours, SlugAt(base, j)))
    decreases MAX_SUFFIX + 1 - from
  {
    hide SlugTaken, SlugAt, CreateWithSlug;
    if from <= MAX_SUFFIX {
      var slug := SlugAt(base, from);
      var attempt := CreateFrom(s, base, team, from, rival);
      if SlugTaken(s.tours, slug) {
        RacedCreate(s, base, team, from + 1, rival);
        TakenStays(s.tours, attempt.state.tours, slug);
      } else {
        var s1 := if rival(from).Some? then Settle(s, CreateWithSlug(s, slug, rival(from).value)) else s;
        if rival(from).Some? {
          ConflictMeansTaken(s, slug, rival(from).value);
        }
        ConflictMeansTaken(s1, slug, team);
        if CreateWithSlug(s1, slug, team) == Refused(SlugConflict) {
          RacedCreate(s1, base, team, from + 1, rival);
          TakenStays(s1.tours, attempt.state.tours, slug);
        } else {
          NotExhausted(s1, slug, team);
        }
      }
    }
  }

  lemma NotExhausted(s: State, slug: string, team: Team)
    ensures CreateWithSlug(s, slug, team) != Refused(SlugExhausted)
  {
  }

  /** Whatever rivals do, the loop keeps the team invariant. */
  lemma {:induction false} RacedCreateKeeps(s: State, base: string, team: Team, from: nat,
                                            rival: nat -> Rows.Option<Team>)
    requires Inv(s) && 1 <= from <= MAX_SUFFIX + 1
    ensures Inv(CreateFrom(s, base, team, from, rival).state)
    decreases MAX_SUFFIX + 1 - from
  {
    hide Inv, SlugTaken, SlugAt, CreateWithSlug;
    if from <= MAX_SUFFIX {
      var slug := SlugAt(base, from);
      RacedCreateKeeps(s, base, team, from + 1, rival);
      var s1 := if rival(from).Some? then Settle(s, CreateWithSlug(s, slug, rival(from).value)) else s;
      if rival(from).Some? && CreateWithSlug(s, slug, rival(from).value).Done? {
        CreateKeeps(s, slug, rival(from).value);
      }
      RacedCreateKeeps(s1, base, team, from + 1, rival);
      if CreateWithSlug(s1, slug, team).Done? {
        CreateKeeps(s1, slug, team);
      }
    }
  }

  function Digit(c: char): nat {
    match c
    case '1' => 1 case '2' => 2 case '3' => 3 case '4' => 4 case '5' => 5
    case '6' => 6 case '7' => 7 case '8' => 8 case '9' => 9
    case _ => 0
  }

  function Number(s: string): nat {
    if |s| == 0 then 0 else 10 * Number(s[..|s| - 1]) + Digit(s[|s| - 1])
  }

  lemma DigitReadsBack(d: nat)
    requires d < 10
    ensures Digit("0123456789"[d]) == d
  {
  }

  /** Reading a suffix back gives the number it was made from. */
  lemma {:induction false} DecimalReadsBack(n: nat)
    ensures Number(Decimal(n)) == n
  {
    hide Digit;
    DigitReadsBack(n % 10);
    if n < 10 {
      assert Decimal(n)[..0] == [];
    } else {
      DecimalReadsBack(n / 10);
      assert Decimal(n)[..|Decimal(n)| - 1] == Decimal(n / 10);
    }
  }

  lemma CandidatesDiffer(base: string, j: nat, k: nat)
    requires 1 <= j < k
    ensures SlugAt(base, j) != SlugAt(base, k)
  {
    DecimalReadsBack(j);
    DecimalReadsBack(k);
    var b, c := base + "-" + Decimal(j), base + "-" + Decimal(k);
    assert b[|base| + 1..] == Decimal(j) && c[|base| + 1..] == Decimal(k);
    assert |c| > |base|;
  }

  /** The candidates up to `k` need as many tours to be all taken. */
  lemma {:induction false} TakenNeedTours(tours: seq<TourRow>, base: string, k: nat) returns (owners: set<nat>)
    requires forall j :: 1 <= j <= k ==> SlugTaken(tours, SlugAt(base, j))
    ensures |owners| == k
    ensures forall t :: t in owners ==>
      t < |tours| && exists j :: 1 <= j <= k && tours[t].slug == SlugAt(base, j)
  {
    if k == 0 {
      owners := {};
    } else {
      var rest := TakenNeedTours(tours, base, k - 1);
      assert SlugTaken(tours, SlugAt(base, k));
      var t: nat :| t < |tours| && tours[t].slug == SlugAt(base, k);
      if t in rest {
        var j :| 1 <= j <= k - 1 && tours[t].slug == SlugAt(base, j);
        CandidatesDiffer(base, j, k);
        assert false;
      }
      owners := rest + {t};
    }
  }

  lemma {:induction false} BoundedCount(indices: set<nat>, n: nat)
    requires forall t :: t in indices ==> t < n
    ensures |indices| <= n
  {
    if n > 0 {
      BoundedCount(indices - {n - 1}, n - 1);
    }
  }

  /** With fewer than a hundred tours in the table a name can always be placed. */
  lemma FewToursNeverExhaust(tours: seq<TourRow>, base: string)
    requires |tours| < MAX_SUFFIX
    ensures FirstFree(tours, base, 1).Some?
  {
    FirstFreeIsFirst(tours, base, 1);
    if FirstFree(tours, base, 1).None? {
      hide FirstFree;
      var owners := TakenNeedTours(tours, base, MAX_SUFFIX);
      BoundedCount(owners, |tours|);
      assert false;
    }
  }
}
