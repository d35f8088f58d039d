/** When the tours and users services accept a team call and which rows it writes, row by row. */
module TeamAnswers {
  import opened Teams
  import opened TeamSafety

  predicate Serves(s: State, i: nat, u: nat) {
    i < |s.assignments| && s.assignments[i].user == u && !s.assignments[i].ended
  }

  /** One lead guide and up to four guides, all different and each in the role. */
  predicate MayStaff(s: State, team: Team) {
    && |team.guides| <= 4
    && (forall i, j :: 0 <= i < j < |team.guides| ==> team.guides[i] != team.guides[j])
    && (forall i :: 0 <= i < |team.guides| ==> team.guides[i] != team.lead)
    && team.lead in s.users && s.users[team.lead] == LeadGuide
    && (forall i :: 0 <= i < |team.guides| ==> team.guides[i] in s.users && s.users[team.guides[i]] == Guide)
  }

  /** The tour's assignments end and the new team's follow, the lead first; the others stand. */
  ghost predicate Staffed(s: State, t: nat, team: Team, s': State) {
    var n := |s.assignments|;
    && |s'.assignments| == n + 1 + |team.guides|
    && (forall i :: 0 <= i < n ==>
          s'.assignments[i] == if s.assignments[i].tour == t then s.assignments[i].(ended := true)
                               else s.assignments[i])
    && s'.assignments[n] == Assignment(t, team.lead, LeadGuide, false)
    && (forall k :: 0 <= k < |team.guides| ==>
          s'.assignments[n + 1 + k] == Assignment(t, team.guides[k], Guide, false))
  }

  /** A live tour's team is replaced exactly by a team that may serve. */
  lemma ReplaceExactly(s: State, t: nat, team: Team)
    ensures var r := ReplaceGuideTeam(s, t, team); var live := t < |s.tours| && !s.tours[t].deleted;
      && (r.Done? <==> live && MayStaff(s, team))
      && (r.Done? ==> Staffed(s, t, team, r.value) && r.value == s.(assignments := r.value.assignments))
      && (r.Refused? ==>
            r.error == if !live then TourNotFound else if |team.guides| > 4 then InvalidRequest
                       else if !Distinct(team.guides) || team.lead in team.guides then InvalidGuideTeam
                       else RoleIncompatible)
  {
    if t < |s.tours| && !s.tours[t].deleted {
      TeamExactly(s, t, team);
      hide MayStaff, Staffed, ReplaceTeam;
    }
  }

  lemma TeamExactly(s: State, t: nat, team: Team)
    ensures var r := ReplaceTeam(s, t, team);
      && (r.Done? <==> MayStaff(s, team))
      && (r.Done? ==> Staffed(s, t, team, r.value) && r.value == s.(assignments := r.value.assignments))
      && (r.Refused? ==>
            r.error == if |team.guides| > 4 then InvalidRequest
                       else if !Distinct(team.guides) || team.lead in team.guides then InvalidGuideTeam
                       else RoleIncompatible)
  {
  }

  /** A tour is inserted, last and live, exactly under a slug no tour ever had and with a team that may serve. */
  lemma CreateWithSlugExactly(s: State, slug: string, team: Team)
    ensures var r := CreateWithSlug(s, slug, team); var n := |s.tours|;
      && (r.Done? <==> (forall u :: 0 <= u < n ==> s.tours[u].slug != slug) && MayStaff(s, team))
      && (r.Done? ==>
            && r.value.tours == s.tours + [TourRow(slug, false)] && Staffed(s, n, team, r.value)
            && r.value == s.(tours := r.value.tours, assignments := r.value.assignments))
  {
    var s1 := s.(tours := s.tours + [TourRow(slug, false)]);
    TeamExactly(s1, |s.tours|, team);
    assert MayStaff(s1, team) <==> MayStaff(s, team);
    hide ReplaceTeam, MayStaff;
  }

  /** A live tour is deleted exactly when nothing blocks it; its assignments end and nothing else changes. */
  lemma DeleteTourExactly(s: State, t: nat, blocked: bool)
    ensures var r := DeleteTour(s, t, blocked); var live := t < |s.tours| && !s.tours[t].deleted;
      && (r.Done? <==> live && !blocked)
      && (r.Refused? ==> r.error == if live then Blocked else TourNotFound)
      && (r.Done? ==>
            && t < |s.tours| && |r.value.assignments| == |s.assignments|
            && (forall i :: 0 <= i < |s.assignments| ==>
                  r.value.assignments[i] == if s.assignments[i].tour == t then s.assignments[i].(ended := true)
                                            else s.assignments[i])
            && r.value == s.(tours := s.tours[t := TourRow(s.tours[t].slug, true)],
                             assignments := r.value.assignments))
  {
  }

  /** An administrator gives another user a role exactly when every place the user holds has that role. */
  lemma ChangeRoleExactly(s: State, actor: nat, target: nat, role: Role)
    ensures var r := ChangeRole(s, actor, target, role);
      && (r.Done? <==>
            && actor != target && target in s.users
            && forall i: nat :: Serves(s, i, target) ==> s.assignments[i].role == role)
      && (r.Done? ==> r.value == s.(users := s.users[target := role]))
      && (r.Refused? ==>
            r.error == if actor == target then Forbidden else if target !in s.users then UserNotFound
                       else RoleIncompatible)
  {
  }

  /** A user is deleted exactly when no assignment of any age, no booking and no review names them, by
      themselves or by another administrator.
    */
  lemma DeleteUserExactly(s: State, actor: nat, target: nat, administrative: bool)
    ensures var r := DeleteUser(s, actor, target, administrative);
      && (r.Done? <==>
            && (administrative ==> actor != target) && target in s.users
            && (forall i :: 0 <= i < |s.assignments| ==> s.assignments[i].user != target)
            && target !in s.booked && target !in s.reviewers)
      && (r.Done? ==> r.value == s.(users := s.users - {target}))
      && (r.Refused? ==>
            r.error == if administrative && actor == target then Forbidden
                       else if target !in s.users then UserNotFound
                       else if exists i: nat :: Serves(s, i, target) then HasAssignments
                       else if target in s.booked then HasBookings else StillReferenced)
  {
    if i: nat :| Serves(s, i, target) {
      assert Live(s, i);
    }
    if i :| 0 <= i < |s.assignments| && Live(s, i) && s.assignments[i].user == target {
      assert Serves(s, i, target);
    }
  }

  /** The candidates of a name: itself, then itself with the decimal numbers from 2 to 100. */
  lemma CandidatesAre(base: string, k: nat)
    requires 1 <= k
    ensures k == 1 ==> SlugAt(base, k) == base
    ensures k > 1 ==> base + "-" <= SlugAt(base, k) && Number(SlugAt(base, k)[|base| + 1..]) == k
    ensures MAX_SUFFIX == 100
  {
    DecimalReadsBack(k);
    if k > 1 {
      var slug := base + "-" + Decimal(k);
      assert slug[|base| + 1..] == Decimal(k);
    }
  }
}
