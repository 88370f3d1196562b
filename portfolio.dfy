/** The project collection and the dashboard's aggregates: how many projects
    there are, how many pass the 5% test, how many are FEOC-eligible, and how
    much has been invested. New projects are appended with the next
    sequential id. */
module Portfolio {
  import opened Calendar
  import opened SafeHarbor
  import opened BocTrack

  datatype Project = Project(
    id: int,
    name: string,
    capacityKw: int,
    location: string,
    totalCost: nat,       // cents
    allocatedCost: nat,   // cents
    paymentDate: Date,
    interconnectionStatus: string,
    siteControl: bool,
    permits: string,
    estimatedPIS: string)

  predicate AllDatesValid(ps: seq<Project>) {
    forall i :: 0 <= i < |ps| ==> ValidDate(ps[i].paymentDate)
  }

  /** Ids are 1, 2, ..., |ps| in order. */
  predicate SequentialIds(ps: seq<Project>) {
    forall i :: 0 <= i < |ps| ==> ps[i].id == i + 1
  }

  predicate IsQualifiedProject(p: Project) {
    Qualified(p.allocatedCost, p.totalCost)
  }

  /** The dashboard's FEOC filter: an eligible track and a payment on or
      before the FEOC deadline. The eligible-track part never removes a
      project paid in time, so the filter is the date test alone. */
  predicate IsFeocEligible(p: Project)
    requires ValidDate(p.paymentDate)
    ensures IsFeocEligible(p) <==> OnOrBefore(p.paymentDate, FeocDeadline)
  {
    FeocPaymentIsEligible(p.capacityKw, p.paymentDate);
    DetermineBOCTrack(p.capacityKw, p.paymentDate).eligible && OnOrBefore(p.paymentDate, FeocDeadline)
  }

  /** Number of projects passing the 5% test. */
  function CountQualified(ps: seq<Project>): (n: nat)
    ensures n <= |ps|
  {
    if ps == [] then 0
    else (if IsQualifiedProject(ps[0]) then 1 else 0) + CountQualified(ps[1..])
  }

  /** Number of projects passing the dashboard's FEOC filter. */
  function CountFeocEligible(ps: seq<Project>): (n: nat)
    requires AllDatesValid(ps)
    ensures n <= |ps|
  {
    if ps == [] then 0
    else (if IsFeocEligible(ps[0]) then 1 else 0) + CountFeocEligible(ps[1..])
  }

  /** Number of projects paid on or before the FEOC deadline, capacity
      aside. */
  function CountPaidByFeocDeadline(ps: seq<Project>): (n: nat)
    requires AllDatesValid(ps)
    ensures n <= |ps|
  {
    if ps == [] then 0
    else (if OnOrBefore(ps[0].paymentDate, FeocDeadline) then 1 else 0) + CountPaidByFeocDeadline(ps[1..])
  }

  /** The sum of the allocated costs. */
  function SumAllocated(ps: seq<Project>): nat {
    if ps == [] then 0 else ps[0].allocatedCost + SumAllocated(ps[1..])
  }

  /** The dashboard's left fold: each project's allocated cost added to the
      running total, starting from `acc`. It ends at `acc` plus the sum. */
  function ReduceAllocated(acc: nat, ps: seq<Project>): (r: nat)
    ensures r == acc + SumAllocated(ps)
    decreases ps
  {
    if ps == [] then acc else ReduceAllocated(acc + ps[0].allocatedCost, ps[1..])
  }

  lemma {:induction false} FeocCountIsDateCount(ps: seq<Project>)
    requires AllDatesValid(ps)
    ensures CountFeocEligible(ps) == CountPaidByFeocDeadline(ps)
  {
    if ps != [] {
      FeocCountIsDateCount(ps[1..]);
    }
  }

  datatype DashboardStats = DashboardStats(
    totalProjects: nat,
    qualifiedProjects: nat,
    feocEligible: nat,
    totalInvested: nat)

  function Dashboard(ps: seq<Project>): (s: DashboardStats)
    requires AllDatesValid(ps)
    ensures s.totalProjects == |ps|
    ensures s.qualifiedProjects <= s.totalProjects
    ensures s.feocEligible <= s.totalProjects
    ensures s.feocEligible == CountPaidByFeocDeadline(ps)
    ensures s.totalInvested == SumAllocated(ps)
  {
    FeocCountIsDateCount(ps);
    DashboardStats(|ps|, CountQualified(ps), CountFeocEligible(ps), ReduceAllocated(0, ps))
  }

  // ---------------------------------------------------------------------
  // Appending a project

  lemma {:induction false} CountQualifiedAppend(ps: seq<Project>, p: Project)
    ensures CountQualified(ps + [p]) == CountQualified(ps) + (if IsQualifiedProject(p) then 1 else 0)
  {
    if ps != [] {
      assert (ps + [p])[1..] == ps[1..] + [p];
      CountQualifiedAppend(ps[1..], p);
    }
  }

  lemma {:induction false} CountPaidAppend(ps: seq<Project>, p: Project)
    requires AllDatesValid(ps) && ValidDate(p.paymentDate)
    ensures AllDatesValid(ps + [p])
    ensures CountPaidByFeocDeadline(ps + [p])
            == CountPaidByFeocDeadline(ps) + (if OnOrBefore(p.paymentDate, FeocDeadline) then 1 else 0)
  {
    assert forall i :: 0 <= i < |ps + [p]| ==> ValidDate((ps + [p])[i].paymentDate) by {
      forall i | 0 <= i < |ps + [p]| ensures ValidDate((ps + [p])[i].paymentDate) {
        if i < |ps| { assert (ps + [p])[i] == ps[i]; }
      }
    }
    if ps != [] {
      assert (ps + [p])[1..] == ps[1..] + [p];
      CountPaidAppend(ps[1..], p);
    }
  }

  lemma {:induction false} SumAllocatedAppend(ps: seq<Project>, p: Project)
    ensures SumAllocated(ps + [p]) == SumAllocated(ps) + p.allocatedCost
  {
    if ps != [] {
      assert (ps + [p])[1..] == ps[1..] + [p];
      SumAllocatedAppend(ps[1..], p);
    }
  }

  /** Appending one project moves each aggregate by that project's share. */
  lemma DashboardAfterAppend(ps: seq<Project>, p: Project)
    requires AllDatesValid(ps) && ValidDate(p.paymentDate)
    ensures AllDatesValid(ps + [p])
    ensures Dashboard(ps + [p]).totalProjects == Dashboard(ps).totalProjects + 1
    ensures Dashboard(ps + [p]).qualifiedProjects
            == Dashboard(ps).qualifiedProjects + (if IsQualifiedProject(p) then 1 else 0)
    ensures Dashboard(ps + [p]).feocEligible
            == Dashboard(ps).feocEligible + (if OnOrBefore(p.paymentDate, FeocDeadline) then 1 else 0)
    ensures Dashboard(ps + [p]).totalInvested == Dashboard(ps).totalInvested + p.allocatedCost
  {
    CountPaidAppend(ps, p);
    CountQualifiedAppend(ps, p);
    SumAllocatedAppend(ps, p);
  }

  /** Sequential ids are unique. */
  lemma SequentialIdsUnique(ps: seq<Project>, i: int, j: int)
    requires SequentialIds(ps)
    requires 0 <= i < |ps| && 0 <= j < |ps| && i != j
    ensures ps[i].id != ps[j].id
  {
  }

  /** The project the list starts with. */
  const SeedProject := Project(
    1, "Project Sunrise", 5000, "Texas", 800000000, 52000000, Date(2025, 12, 15),
    "Conditional Approval", true, "Building Permit Submitted", "2028-06-30")

  /** The component's list of projects. */
  class ProjectList {
    var projects: seq<Project>

    ghost predicate Valid()
      reads this
    {
      SequentialIds(projects) && AllDatesValid(projects)
    }

    constructor ()
      ensures Valid()
      ensures projects == [SeedProject]
    {
      projects := [SeedProject];
    }

    /** Adds the calculator's project with the next id, unless a listed
        project is being viewed, in which case nothing changes. */
    method HandleCalculate(projectData: Project, projectSelected: bool)
      requires Valid()
      requires ValidDate(projectData.paymentDate)
      modifies this
      ensures Valid()
      ensures projectSelected ==> projects == old(projects)
      ensures !projectSelected ==> |projects| == |old(projects)| + 1
      ensures !projectSelected ==> projects[..|old(projects)|] == old(projects)
      ensures !projectSelected ==> projects[|old(projects)|] == projectData.(id := |old(projects)| + 1)
    {
      if !projectSelected {
        var newProject := projectData.(id := |projects| + 1);
        CountPaidAppend(projects, newProject);
        projects := projects + [newProject];
      }
    }
  }
}
