/** The tours and users services, statement by statement, where they touch guide teams. */
module TeamServices {
  import Rows
  import opened Teams
  import opened TeamSafety

  function UserSet(ids: seq<nat>): set<nat> {
    set u | u in ids
  }

  lemma UserSetSplits(ids: seq<nat>)
    requires |ids| > 0
    ensures var front, last := ids[..|ids| - 1], ids[|ids| - 1];
      UserSet(ids) == UserSet(front) + {last}
      && (Distinct(ids) <==> Distinct(front) && last !in UserSet(front))
  {
    var n := |ids| - 1;
    assert ids == ids[..n] + [ids[n]];
    if Distinct(ids[..n]) && ids[n] !in UserSet(ids[..n]) {
      forall i, j | 0 <= i < j < |ids| ensures ids[i] != ids[j] {
        assert ids[..n][i] in UserSet(ids[..n]);
      }
    }
  }

  /** A list has no duplicates exactly when its set is as large as it is. */
  lemma {:induction false} DistinctBySize(ids: seq<nat>)
    ensures |UserSet(ids)| <= |ids| && (Distinct(ids) <==> |UserSet(ids)| == |ids|)
  {
    if |ids| == 0 {
      assert UserSet(ids) == {};
    } else {
      UserSetSplits(ids);
      hide UserSet, Distinct;
      DistinctBySize(ids[..|ids| - 1]);
    }
  }

  lemma RacedCreateKept(s: State, base: string, team: Team, rival: nat -> Rows.Option<Team>)
    ensures Inv(s) ==> Inv(Teams.Create(s, base, team, rival).state)
  {
    hide Inv, CreateFrom;
    if Inv(s) {
      RacedCreateKeeps(s, base, team, 1, rival);
    }
  }

  lemma StepKept(s: State, step: Step)
    ensures Inv(s) ==> Inv(Apply(s, step))
  {
    hide Inv, Apply;
    if Inv(s) {
      StepKeeps(s, step);
    }
  }

  class TeamTables {
    var users: map<nat, Role>
    var tours: seq<TourRow>
    var assignments: seq<Assignment>
    var booked: set<nat>
    var reviewers: multiset<nat>

    ghost function Contents(): State
      reads this
    {
      State(users, tours, assignments, booked, reviewers)
    }

    constructor ()
      ensures Contents() == NOBODY
    {
      users, tours, assignments, booked, reviewers := map[], [], [], {}, multiset{};
    }

    method ReplaceTeam(t: nat, team: Team) returns (r: TeamResult<()>)
      modifies `assignments
      ensures match Teams.ReplaceTeam(old(Contents()), t, team)
        case Done(s) => r == Done(()) && Contents() == s
        case Refused(e) => r == Refused(e) && Contents() == old(Contents())
    {
      if |team.guides| > MAX_GUIDES {
        return Refused(InvalidRequest);
      }
      DistinctBySize(team.guides);
      var guideIds := UserSet(team.guides);
      if |guideIds| != |team.guides| || team.lead in guideIds {
        return Refused(InvalidGuideTeam);
      }
      var compatible := HasRole(users, team.lead, LeadGuide);
      var i := 0;
      while i < |team.guides|
        invariant 0 <= i <= |team.guides|
        invariant compatible <==> (HasRole(users, team.lead, LeadGuide)
                                   && forall j :: 0 <= j < i ==> HasRole(users, team.guides[j], Guide))
      {
        compatible := compatible && HasRole(users, team.guides[i], Guide);
        i := i + 1;
      }
      if !compatible {
        return Refused(RoleIncompatible);
      }
      assignments := Ended(assignments, t);
      assignments := assignments + [Assignment(t, team.lead, LeadGuide, false)];
      i := 0;
      while i < |team.guides|
        invariant 0 <= i <= |team.guides|
        invariant assignments == old(Ended(assignments, t)) + Assigned(t, team)[..i + 1]
      {
        assignments := assignments + [Assignment(t, team.guides[i], Guide, false)];
        i := i + 1;
      }
      return Done(());
    }

    method ReplaceGuideTeam(t: nat, team: Team) returns (r: TeamResult<()>)
      modifies `assignments
      ensures match Teams.ReplaceGuideTeam(old(Contents()), t, team)
        case Done(s) => r == Done(()) && Contents() == s
        case Refused(e) => r == Refused(e) && Contents() == old(Contents())
      ensures old(Inv(Contents())) ==> Inv(Contents())
    {
      StepKept(Contents(), Replace(t, team));
      hide Inv;
      if t >= |tours| || tours[t].deleted {
        return Refused(TourNotFound);
      }
      r := ReplaceTeam(t, team);
    }

    /** Inserts the tour and its team in one transaction; a refused team takes the tour back out. */
    method CreateWithSlug(slug: string, team: Team) returns (r: TeamResult<()>)
      modifies `tours, `assignments
      ensures match Teams.CreateWithSlug(old(Contents()), slug, team)
        case Done(s) => r == Done(()) && Contents() == s
        case Refused(e) => r == Refused(e) && Contents() == old(Contents())
      ensures old(Inv(Contents())) ==> Inv(Contents())
    {
      StepKept(Contents(), TryCreate(slug, team));
      hide Inv;
      if SlugTaken(tours, slug) {
        return Refused(SlugConflict);
      }
      var before := tours;
      tours := tours + [TourRow(slug, false)];
      r := ReplaceTeam(|before|, team);
      if r.Refused? {
        tours := before;
      }
    }

    /** Tries the candidates in order, goes on after a lost race, and gives up after the hundredth. */
    method Create(base: string, team: Team, rival: nat -> Rows.Option<Team>) returns (r: TeamResult<()>)
      modifies `tours, `assignments
      ensures Teams.Create(old(Contents()), base, team, rival) == Attempt(Contents(), r)
      ensures old(Inv(Contents())) ==> Inv(Contents())
    {
      RacedCreateKept(Contents(), base, team, rival);
      if base == "" {
        return Refused(InvalidTourName);
      }
      var suffix := 1;
      while suffix <= MAX_SUFFIX
        invariant 1 <= suffix <= MAX_SUFFIX + 1
        invariant CreateFrom(Contents(), base, team, suffix, rival)
               == CreateFrom(old(Contents()), base, team, 1, rival)
      {
        var slug := SlugAt(base, suffix);
        if !SlugTaken(tours, slug) {
          if rival(suffix).Some? {
            var _ := CreateWithSlug(slug, rival(suffix).value);
          }
          r := CreateWithSlug(slug, team);
          if r != Refused(SlugConflict) {
            return;
          }
        }
        suffix := suffix + 1;
      }
      return Refused(SlugExhausted);
    }

    method Delete(t: nat, blocked: bool) returns (r: TeamResult<()>)
      modifies `tours, `assignments
      ensures match DeleteTour(old(Contents()), t, blocked)
        case Done(s) => r == Done(()) && Contents() == s
        case Refused(e) => r == Refused(e) && Contents() == old(Contents())
      ensures old(Inv(Contents())) ==> Inv(Contents())
      ensures r.Done? ==> forall i: nat :: Live(Contents(), i) ==> assignments[i].tour != t
    {
      StepKept(Contents(), Step.Delete(t, blocked));
      hide Inv;
      if t >= |tours| || tours[t].deleted {
        return Refused(TourNotFound);
      }
      if blocked {
        return Refused(Blocked);
      }
      tours := tours[t := tours[t].(deleted := true)];
      assignments := Ended(assignments, t);
      return Done(());
    }

    method ChangeRole(actor: nat, target: nat, role: Role) returns (r: TeamResult<()>)
      modifies `users
      ensures match Teams.ChangeRole(old(Contents()), actor, target, role)
        case Done(s) => r == Done(()) && Contents() == s
        case Refused(e) => r == Refused(e) && Contents() == old(Contents())
      ensures old(Inv(Contents())) ==> Inv(Contents())
      ensures r.Done? ==> forall i: nat :: Live(Contents(), i) && assignments[i].user == target ==>
                            assignments[i].role == role
    {
      StepKept(Contents(), SetRole(actor, target, role));
      hide Inv;
      if actor == target {
        return Refused(Forbidden);
      }
      if target !in users {
        return Refused(UserNotFound);
      }
      if exists i :: 0 <= i < |assignments| && assignments[i].user == target && !assignments[i].ended
                     && assignments[i].role != role {
        return Refused(RoleIncompatible);
      }
      users := users[target := role];
      return Done(());
    }

    method DeleteUser(actor: nat, target: nat, administrative: bool) returns (r: TeamResult<()>)
      modifies `users
      ensures match Teams.DeleteUser(old(Contents()), actor, target, administrative)
        case Done(s) => r == Done(()) && Contents() == s
        case Refused(e) => r == Refused(e) && Contents() == old(Contents())
      ensures old(Inv(Contents())) ==> Inv(Contents())
      ensures r.Done? ==> !EverAssigned(Contents(), target) && target !in booked && target !in reviewers
    {
      StepKept(Contents(), Remove(actor, target, administrative));
      hide Inv;
      if administrative && actor == target {
        return Refused(Forbidden);
      }
      if target !in users {
        return Refused(UserNotFound);
      }
      if exists i :: 0 <= i < |assignments| && assignments[i].user == target && !assignments[i].ended {
        return Refused(HasAssignments);
      }
      if target in booked {
        return Refused(HasBookings);
      }
      if (exists i :: 0 <= i < |assignments| && assignments[i].user == target) || target in reviewers {
        return Refused(StillReferenced);
      }
      users := users - {target};
      return Done(());
    }
  }
}
