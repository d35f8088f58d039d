/** Guide teams: tours, users and assignments, and the transactions that touch them. */
module Teams {
  import Rows

  datatype Role = User | Guide | LeadGuide | Admin

  /** A guide's place on a tour; an ended assignment stays in the table. */
  datatype Assignment = Assignment(tour: nat, user: nat, role: Role, ended: bool)

  datatype TourRow = TourRow(slug: string, deleted: bool)

  datatype Team = Team(lead: nat, guides: seq<nat>)

  datatype TeamFailure =
    | InvalidRequest
    | InvalidTourName
    | InvalidGuideTeam
    | RoleIncompatible
    | SlugConflict
    | SlugExhausted
    | TourNotFound
    | UserNotFound
    | Blocked
    | Forbidden
    | HasAssignments
    | HasBookings
    | StillReferenced

  datatype TeamResult<+T> = Done(value: T) | Refused(error: TeamFailure)

  /** `booked` are the users a booking refers to, `reviewers` the author of every review. */
  datatype State = State(
    users: map<nat, Role>,
    tours: seq<TourRow>,
    assignments: seq<Assignment>,
    booked: set<nat>,
    reviewers: multiset<nat>)

  const NOBODY := State(map[], [], [], {}, multiset{})
  const MAX_GUIDES := 4
  const MAX_SUFFIX := 100

  // --- teams ---

  predicate Distinct(ids: seq<nat>) {
    forall i, j :: 0 <= i < j < |ids| ==> ids[i] != ids[j]
  }

  predicate HasRole(users: map<nat, Role>, u: nat, role: Role) {
    u in users && users[u] == role
  }

  function EndedRow(row: Assignment, t: nat): Assignment {
    if row.tour == t then row.(ended := true) else row
  }

  /** Every assignment of the tour ended. */
  function Ended(assignments: seq<Assignment>, t: nat): (r: seq<Assignment>)
    ensures |r| == |assignments|
    ensures forall i :: 0 <= i < |r| ==> r[i] == EndedRow(assignments[i], t)
  {
    seq(|assignments|, i requires 0 <= i < |assignments| => EndedRow(assignments[i], t))
  }

  function Assigned(t: nat, team: Team): (r: seq<Assignment>)
    ensures |r| == 1 + |team.guides|
    ensures r[0] == Assignment(t, team.lead, LeadGuide, false)
    ensures forall i :: 0 < i < |r| ==> r[i] == Assignment(t, team.guides[i - 1], Guide, false)
  {
    [Assignment(t, team.lead, LeadGuide, false)]
    + seq(|team.guides|, i requires 0 <= i < |team.guides| => Assignment(t, team.guides[i], Guide, false))
  }

  /** The replacement of a tour's team; the request format allows at most four distinct supporters. */
  function ReplaceTeam(s: State, t: nat, team: Team): TeamResult<State> {
    if |team.guides| > MAX_GUIDES then Refused(InvalidRequest)
    else if !Distinct(team.guides) || team.lead in team.guides then Refused(InvalidGuideTeam)
    else if !HasRole(s.users, team.lead, LeadGuide)
            || exists i :: 0 <= i < |team.guides| && !HasRole(s.users, team.guides[i], Guide)
    then Refused(RoleIncompatible)
    else Done(s.(assignments := Ended(s.assignments, t) + Assigned(t, team)))
  }

  predicate LiveTour(s: State, t: nat) {
    t < |s.tours| && !s.tours[t].deleted
  }

  function ReplaceGuideTeam(s: State, t: nat, team: Team): TeamResult<State> {
    if !LiveTour(s, t) then Refused(TourNotFound) else ReplaceTeam(s, t, team)
  }

  // --- tours ---

  function Decimal(n: nat): string {
    if n < 10 then ["0123456789"[n]] else Decimal(n / 10) + ["0123456789"[n % 10]]
  }

  /** The candidate slugs of a name: the base, base-2, base-3 and so on. */
  function SlugAt(base: string, suffix: nat): string {
    if suffix == 1 then base else base + "-" + Decimal(suffix)
  }

  /** The unique index on slugs, which also counts deleted tours. */
  predicate SlugTaken(tours: seq<TourRow>, slug: string) {
    exists t :: 0 <= t < |tours| && tours[t].slug == slug
  }

  function CreateWithSlug(s: State, slug: string, team: Team): TeamResult<State> {
    if SlugTaken(s.tours, slug) then Refused(SlugConflict)
    else ReplaceTeam(s.(tours := s.tours + [TourRow(slug, false)]), |s.tours|, team)
  }

  /** First free candidate from `suffix` on, or none up to the last. */
  function FirstFree(tours: seq<TourRow>, base: string, suffix: nat): Rows.Option<nat>
    decreases MAX_SUFFIX + 1 - suffix
  {
    if suffix > MAX_SUFFIX then Rows.None
    else if SlugTaken(tours, SlugAt(base, suffix)) then FirstFree(tours, base, suffix + 1)
    else Rows.Some(suffix)
  }

  datatype Attempt = Attempt(state: State, result: TeamResult<()>)

  /** The slug loop from a candidate on. `rival` tells which candidates another request, with its own team,
      takes between this request's look and its insert; the insert then conflicts and the loop goes on.
    */
  function CreateFrom(s: State, base: string, team: Team, suffix: nat, rival: nat -> Rows.Option<Team>): Attempt
    decreases MAX_SUFFIX + 1 - suffix
  {
    if suffix > MAX_SUFFIX then Attempt(s, Refused(SlugExhausted))
    else
      var slug := SlugAt(base, suffix);
      if SlugTaken(s.tours, slug) then CreateFrom(s, base, team, suffix + 1, rival)
      else
        var s1 := if rival(suffix).Some? then Settle(s, CreateWithSlug(s, slug, rival(suffix).value)) else s;
        match CreateWithSlug(s1, slug, team)
        case Done(s2) => Attempt(s2, Done(()))
        case Refused(e) =>
          if e == SlugConflict then CreateFrom(s1, base, team, suffix + 1, rival) else Attempt(s1, Refused(e))
  }

  function Create(s: State, base: string, team: Team, rival: nat -> Rows.Option<Team>): Attempt {
    if base == "" then Attempt(s, Refused(InvalidTourName)) else CreateFrom(s, base, team, 1, rival)
  }

  function Settle(s: State, r: TeamResult<State>): State {
    if r.Done? then r.value else s
  }

  /** `blocked` tells whether reserved departures or the image store stand in the way. */
  function DeleteTour(s: State, t: nat, blocked: bool): TeamResult<State> {
    if !LiveTour(s, t) then Refused(TourNotFound)
    else if blocked then Refused(Blocked)
    else Done(s.(tours := s.tours[t := s.tours[t].(deleted := true)], assignments := Ended(s.assignments, t)))
  }

  // --- users ---

  predicate Live(s: State, i: nat) {
    i < |s.assignments| && !s.assignments[i].ended
  }

  function ChangeRole(s: State, actor: nat, target: nat, role: Role): TeamResult<State> {
    if actor == target then Refused(Forbidden)
    else if target !in s.users then Refused(UserNotFound)
    else if exists i :: 0 <= i < |s.assignments| && Live(s, i) && s.assignments[i].user == target
                        && s.assignments[i].role != role
    then Refused(RoleIncompatible)
    else Done(s.(users := s.users[target := role]))
  }

  predicate EverAssigned(s: State, u: nat) {
    exists i :: 0 <= i < |s.assignments| && s.assignments[i].user == u
  }

  /** The last guard is the database's: every row that names the user restricts the deletion. */
  function DeleteUser(s: State, actor: nat, target: nat, administrative: bool): TeamResult<State> {
    if administrative && actor == target then Refused(Forbidden)
    else if target !in s.users then Refused(UserNotFound)
    else if exists i :: 0 <= i < |s.assignments| && Live(s, i) && s.assignments[i].user == target
    then Refused(HasAssignments)
    else if target in s.booked then Refused(HasBookings)
    else if EverAssigned(s, target) || target in s.reviewers then Refused(StillReferenced)
    else Done(s.(users := s.users - {target}))
  }

  // --- the machine ---

  datatype Step =
    | Register(newUser: nat)
    | Book(booker: nat)
    | Review(author: nat)
    | Unreview(formerAuthor: nat)
    | TryCreate(slug: string, team: Team)
    | Replace(tour: nat, newTeam: Team)
    | Delete(deletedTour: nat, blocked: bool)
    | SetRole(actor: nat, target: nat, role: Role)
    | Remove(remover: nat, removed: nat, administrative: bool)

  function Apply(s: State, step: Step): State {
    match step
    case Register(u) => if u in s.users then s else s.(users := s.users[u := User])
    case Book(u) => if u in s.users then s.(booked := s.booked + {u}) else s
    case Review(u) => if u in s.users then s.(reviewers := s.reviewers + multiset{u}) else s
    case Unreview(u) => s.(reviewers := s.reviewers - multiset{u})
    case TryCreate(slug, team) => Settle(s, CreateWithSlug(s, slug, team))
    case Replace(t, team) => Settle(s, ReplaceGuideTeam(s, t, team))
    case Delete(t, blocked) => Settle(s, DeleteTour(s, t, blocked))
    case SetRole(actor, target, role) => Settle(s, ChangeRole(s, actor, target, role))
    case Remove(actor, target, administrative) => Settle(s, DeleteUser(s, actor, target, administrative))
  }

  function Run(s: State, steps: seq<Step>): State {
    if |steps| == 0 then s else Apply(Run(s, steps[..|steps| - 1]), steps[|steps| - 1])
  }

  // --- the invariant ---

  /** Rows of the tour's live assignments in one role. */
  function Serving(s: State, t: nat, role: Role): set<nat> {
    set i: nat | i < |s.assignments| && s.assignments[i].tour == t && !s.assignments[i].ended
                 && s.assignments[i].role == role
  }

  /** An assigned user exists, and while the assignment lives the user has exactly its role. */
  ghost predicate AssignmentOk(s: State, row: Assignment) {
    && row.user in s.users && row.tour < |s.tours|
    && (row.role == Guide || row.role == LeadGuide)
    && (!row.ended ==> s.users[row.user] == row.role && !s.tours[row.tour].deleted)
  }

  ghost predicate TeamOk(s: State, t: nat) {
    |Serving(s, t, LeadGuide)| == 1 && |Serving(s, t, Guide)| <= MAX_GUIDES
  }

  /** Nobody serves twice on one tour. */
  ghost predicate ServeOnce(assignments: seq<Assignment>) {
    forall i, j :: 0 <= i < j < |assignments| && !assignments[i].ended && !assignments[j].ended
                   && assignments[i].tour == assignments[j].tour ==>
      assignments[i].user != assignments[j].user
  }

  ghost predicate SlugsApart(tours: seq<TourRow>) {
    forall t, u :: 0 <= t < u < |tours| ==> tours[t].slug != tours[u].slug
  }

  ghost predicate AssignmentsOk(s: State) {
    forall i :: 0 <= i < |s.assignments| ==> AssignmentOk(s, s.assignments[i])
  }

  ghost predicate Inv(s: State) {
    && AssignmentsOk(s)
    && (forall t :: LiveTour(s, t) ==> TeamOk(s, t))
    && ServeOnce(s.assignments)
    && SlugsApart(s.tours)
    && s.booked <= s.users.Keys && (forall u :: u in s.reviewers ==> u in s.users)
  }

  // --- what the transactions keep ---

  lemma {:induction false} RangeCount(lo: nat, hi: nat, range: set<nat>)
    requires lo <= hi && forall i :: i in range <==> lo <= i < hi
    ensures |range| == hi - lo
  {
    if lo < hi {
      RangeCount(lo, hi - 1, range - {hi - 1});
    } else {
      assert range == {};
    }
  }

  ghost predicate Replaced(s: State, t: nat, team: Team, s': State) {
    s' == s.(assignments := Ended(s.assignments, t) + Assigned(t, team))
  }

  lemma ReplacedServing(s: State, t: nat, team: Team, s': State, u: nat)
    requires Replaced(s, t, team, s')
    ensures |Serving(s', t, LeadGuide)| == 1 && |Serving(s', t, Guide)| == |team.guides|
    ensures u != t ==> Serving(s', u, LeadGuide) == Serving(s, u, LeadGuide)
    ensures u != t ==> Serving(s', u, Guide) == Serving(s, u, Guide)
  {
    var n := |s.assignments|;
    assert Serving(s', t, LeadGuide) == {n};
    RangeCount(n + 1, n + 1 + |team.guides|, Serving(s', t, Guide));
  }

  lemma ReplacedServeOnce(s: State, t: nat, team: Team, s': State)
    requires Replaced(s, t, team, s') && ServeOnce(s.assignments)
    requires Distinct(team.guides) && team.lead !in team.guides
    ensures ServeOnce(s'.assignments)
  {
  }

  lemma ReplacedAssignments(s: State, t: nat, team: Team, s': State)
    requires Replaced(s, t, team, s') && AssignmentsOk(s) && LiveTour(s, t)
    requires HasRole(s.users, team.lead, LeadGuide)
    requires forall i :: 0 <= i < |team.guides| ==> HasRole(s.users, team.guides[i], Guide)
    ensures AssignmentsOk(s')
  {
    forall i | 0 <= i < |s'.assignments| ensures AssignmentOk(s', s'.assignments[i]) {
      if i < |s.assignments| {
        assert AssignmentOk(s, s.assignments[i]);
      } else {
        assert s'.assignments[i] == Assigned(t, team)[i - |s.assignments|];
      }
    }
  }

  /** Holds of every tour but perhaps one, which is about to get its team. */
  ghost predicate InvBut(s: State, except: nat) {
    && AssignmentsOk(s)
    && (forall t :: LiveTour(s, t) && t != except ==> TeamOk(s, t))
    && ServeOnce(s.assignments)
    && SlugsApart(s.tours)
    && s.booked <= s.users.Keys && (forall u :: u in s.reviewers ==> u in s.users)
  }

  lemma ReplaceTeamKeeps(s: State, t: nat, team: Team)
    requires InvBut(s, t) && LiveTour(s, t) && ReplaceTeam(s, t, team).Done?
    ensures Inv(ReplaceTeam(s, t, team).value)
  {
    var s' := ReplaceTeam(s, t, team).value;
    ReplacedAssignments(s, t, team, s');
    ReplacedServeOnce(s, t, team, s');
    forall u | LiveTour(s', u) ensures TeamOk(s', u) {
      hide Serving;
      ReplacedServing(s, t, team, s', u);
      assert u != t ==> LiveTour(s, u) && TeamOk(s, u);
    }
  }

  lemma CreateKeeps(s: State, slug: string, team: Team)
    requires Inv(s) && CreateWithSlug(s, slug, team).Done?
    ensures Inv(CreateWithSlug(s, slug, team).value)
  {
    var s1 := s.(tours := s.tours + [TourRow(slug, false)]);
    assert InvBut(s1, |s.tours|) by {
      forall i | 0 <= i < |s1.assignments| ensures AssignmentOk(s1, s1.assignments[i]) {
        assert AssignmentOk(s, s.assignments[i]);
      }
      forall t | LiveTour(s1, t) && t != |s.tours| ensures TeamOk(s1, t) {
        assert LiveTour(s, t) && TeamOk(s, t);
        assert Serving(s1, t, LeadGuide) == Serving(s, t, LeadGuide);
        assert Serving(s1, t, Guide) == Serving(s, t, Guide);
      }
    }
    hide InvBut, Inv;
    ReplaceTeamKeeps(s1, |s.tours|, team);
  }

  lemma DeleteTourKeeps(s: State, t: nat)
    requires Inv(s) && LiveTour(s, t)
    ensures Inv(DeleteTour(s, t, false).value)
  {
    var s' := DeleteTour(s, t, false).value;
    forall i | 0 <= i < |s'.assignments| ensures AssignmentOk(s', s'.assignments[i]) {
      assert AssignmentOk(s, s.assignments[i]);
    }
    forall u | LiveTour(s', u) ensures TeamOk(s', u) {
      assert LiveTour(s, u) && TeamOk(s, u);
      assert Serving(s', u, LeadGuide) == Serving(s, u, LeadGuide);
      assert Serving(s', u, Guide) == Serving(s, u, Guide);
    }
  }

  /** Users may change as long as every assigned user stays and every live role still fits. */
  lemma UsersKeep(s: State, s': State)
    requires Inv(s) && s' == s.(users := s'.users, booked := s'.booked, reviewers := s'.reviewers)
    requires forall i :: 0 <= i < |s.assignments| ==>
      && s.assignments[i].user in s'.users
      && (!s.assignments[i].ended ==> s'.users[s.assignments[i].user] == s.assignments[i].role)
    requires s'.booked <= s'.users.Keys && forall u :: u in s'.reviewers ==> u in s'.users
    ensures Inv(s')
  {
    forall i | 0 <= i < |s'.assignments| ensures AssignmentOk(s', s'.assignments[i]) {
      assert AssignmentOk(s, s.assignments[i]);
    }
    forall t | LiveTour(s', t) ensures TeamOk(s', t) {
      assert LiveTour(s, t) && TeamOk(s, t);
      assert Serving(s', t, LeadGuide) == Serving(s, t, LeadGuide);
      assert Serving(s', t, Guide) == Serving(s, t, Guide);
    }
  }

  lemma StepKeeps(s: State, step: Step)
    requires Inv(s)
    ensures Inv(Apply(s, step))
  {
    match step
    case TryCreate(slug, team) =>
      hide Inv;
      if CreateWithSlug(s, slug, team).Done? { CreateKeeps(s, slug, team); }
    case Replace(t, team) =>
      if ReplaceGuideTeam(s, t, team).Done? {
        assert InvBut(s, t);
        hide Inv, InvBut;
        ReplaceTeamKeeps(s, t, team);
      }
    case Delete(t, blocked) =>
      hide Inv;
      if DeleteTour(s, t, blocked).Done? { DeleteTourKeeps(s, t); }
    case _ =>
      UserStepKeeps(s, step);
  }

  lemma UserStepKeeps(s: State, step: Step)
    requires Inv(s) && !step.TryCreate? && !step.Replace? && !step.Delete?
    ensures Inv(Apply(s, step))
  {
    hide TeamOk, ServeOnce, SlugsApart, CreateWithSlug, ReplaceGuideTeam, DeleteTour;
    var s' := Apply(s, step);
    ReferencesKept(s, step);
    forall i | 0 <= i < |s.assignments|
      ensures s.assignments[i].user in s'.users
      ensures !s.assignments[i].ended ==> s'.users[s.assignments[i].user] == s.assignments[i].role
    {
      assert AssignmentOk(s, s.assignments[i]);
      assert !s.assignments[i].ended ==> Live(s, i);
    }
    hide AssignmentOk, AssignmentsOk;
    UsersKeep(s, s');
  }

  lemma ReferencesKept(s: State, step: Step)
    requires s.booked <= s.users.Keys && forall u :: u in s.reviewers ==> u in s.users
    requires !step.TryCreate? && !step.Replace? && !step.Delete?
    ensures var s' := Apply(s, step);
      s'.booked <= s'.users.Keys && forall u :: u in s'.reviewers ==> u in s'.users
  {
    hide ChangeRole, DeleteUser;
    match step
    case SetRole(actor, target, role) => RoleKeepsUsers(s, actor, target, role);
    case Remove(actor, target, administrative) => RemovalSparesReferenced(s, actor, target, administrative);
    case _ =>
  }

  lemma RoleKeepsUsers(s: State, actor: nat, target: nat, role: Role)
    ensures var r := ChangeRole(s, actor, target, role);
      r.Done? ==> target in s.users && r.value == s.(users := s.users[target := role])
  {
  }

  lemma RemovalSparesReferenced(s: State, actor: nat, target: nat, administrative: bool)
    ensures var r := DeleteUser(s, actor, target, administrative);
      r.Done? ==> target !in s.booked && target !in s.reviewers && r.value == s.(users := s.users - {target})
  {
  }

  lemma {:induction false} RunKeeps(steps: seq<Step>)
    ensures Inv(Run(NOBODY, steps))
  {
    if |steps| > 0 {
      hide Inv;
      RunKeeps(steps[..|steps| - 1]);
      StepKeeps(Run(NOBODY, steps[..|steps| - 1]), steps[|steps| - 1]);
    }
  }
}
