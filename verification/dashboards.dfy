/** The two dashboards: a builder's "Manage Projects" page and a sponsor's
    "Manage Grants" page. Both fold over the signed-in user's rows, newest
    first. */
module Dashboards {
  import opened Wrappers
  import opened Model
  import Listing
  import Text

  // ---------------------------------------------------------------------
  // Builder dashboard

  /** One of the caller's projects with the statuses of its applications. */
  datatype OwnedProject = OwnedProject(id: Id, status: ProjectStatus, upvoteCount: int, applications: seq<ApplicationStatus>)

  datatype BuilderStats = BuilderStats(
    totalProjects: int,
    publishedProjects: int,
    totalUpvotes: int,
    totalApplications: int,
    approvedGrants: int,
    pendingApplications: int)

  predicate IsPublished(p: OwnedProject) {
    p.status == Published
  }

  predicate IsApproved(a: ApplicationStatus) {
    a == Approved
  }

  /** Still waiting for a decision: pending or under review. */
  predicate IsAwaiting(a: ApplicationStatus) {
    a == Pending || a == Reviewing
  }

  /** Decided against, or withdrawn. */
  predicate IsClosed(a: ApplicationStatus) {
    a == Rejected || a == Withdrawn
  }

  function Upvotes(p: OwnedProject): int {
    p.upvoteCount
  }

  function Applications(p: OwnedProject): int {
    |p.applications|
  }

  function ApprovedOn(p: OwnedProject): int {
    Listing.Count(p.applications, IsApproved)
  }

  function AwaitingOn(p: OwnedProject): int {
    Listing.Count(p.applications, IsAwaiting)
  }

  function ClosedOn(p: OwnedProject): int {
    Listing.Count(p.applications, IsClosed)
  }

  /** What one project adds to the counters: itself, itself again if
      published, its upvotes, and its applications by status. */
  function ProjectContribution(p: OwnedProject): BuilderStats {
    BuilderStats(1, if p.status == Published then 1 else 0, p.upvoteCount, |p.applications|,
                 Listing.Count(p.applications, IsApproved), Listing.Count(p.applications, IsAwaiting))
  }

  /** Counter-by-counter addition. */
  function AddBuilderStats(x: BuilderStats, y: BuilderStats): BuilderStats {
    BuilderStats(x.totalProjects + y.totalProjects, x.publishedProjects + y.publishedProjects,
                 x.totalUpvotes + y.totalUpvotes, x.totalApplications + y.totalApplications,
                 x.approvedGrants + y.approvedGrants, x.pendingApplications + y.pendingApplications)
  }

  /** The six counters at the top of the page. */
  function BuilderStatsOf(ps: seq<OwnedProject>): (r: BuilderStats)
    ensures r.totalProjects == |ps|
    ensures 0 <= r.publishedProjects <= r.totalProjects
    ensures r.approvedGrants >= 0 && r.pendingApplications >= 0
    ensures |ps| == 0 ==> r == BuilderStats(0, 0, 0, 0, 0, 0)
    ensures |ps| == 1 ==> r == ProjectContribution(ps[0])
  {
    Listing.SumNonNegative(ps, ApprovedOn);
    Listing.SumNonNegative(ps, AwaitingOn);
    Listing.CountOfOne(ps, IsPublished);
    Listing.SumOfOne(ps, Upvotes);
    Listing.SumOfOne(ps, Applications);
    Listing.SumOfOne(ps, ApprovedOn);
    Listing.SumOfOne(ps, AwaitingOn);
    BuilderStats(
      |ps|,
      Listing.Count(ps, IsPublished),
      Listing.Sum(ps, Upvotes),
      Listing.Sum(ps, Applications),
      Listing.Sum(ps, ApprovedOn),
      Listing.Sum(ps, AwaitingOn))
  }

  /** The counters of two lists of projects add up: every project
      contributes on its own, whatever else is listed. */
  lemma BuilderStatsAdd(a: seq<OwnedProject>, b: seq<OwnedProject>)
    ensures BuilderStatsOf(a + b) == AddBuilderStats(BuilderStatsOf(a), BuilderStatsOf(b))
  {
    Listing.FilterAppend(a, b, IsPublished);
    Listing.SumAppend(a, b, Upvotes);
    Listing.SumAppend(a, b, Applications);
    Listing.SumAppend(a, b, ApprovedOn);
    Listing.SumAppend(a, b, AwaitingOn);
  }

  function ApprovedOrAwaitingOn(p: OwnedProject): int {
    ApprovedOn(p) + AwaitingOn(p)
  }

  predicate IsOpenOrApproved(a: ApplicationStatus) {
    IsApproved(a) || IsAwaiting(a)
  }

  /** Every application is counted once: as approved, as awaiting a
      decision, or as rejected or withdrawn. */
  lemma ApplicationsPartition(ps: seq<OwnedProject>)
    ensures BuilderStatsOf(ps).totalApplications
            == BuilderStatsOf(ps).approvedGrants + BuilderStatsOf(ps).pendingApplications + Listing.Sum(ps, ClosedOn)
  {
    forall p: OwnedProject
      ensures Applications(p) == ApprovedOrAwaitingOn(p) + ClosedOn(p)
    {
      Listing.CountUnion(p.applications, IsApproved, IsAwaiting, IsOpenOrApproved);
      Listing.CountUnion(p.applications, IsOpenOrApproved, IsClosed, _ => true);
      AllCounted(p.applications);
    }
    Listing.SumSplit(ps, Applications, ApprovedOrAwaitingOn, ClosedOn);
    Listing.SumSplit(ps, ApprovedOrAwaitingOn, ApprovedOn, AwaitingOn);
  }

  lemma {:induction false} AllCounted(s: seq<ApplicationStatus>)
    ensures Listing.Count(s, _ => true) == |s|
  {
    if |s| > 0 {
      AllCounted(s[1..]);
    }
  }

  /** The banner's noun, when the banner shows. */
  function PendingBanner(pending: int): (r: Option<string>)
    ensures r.Some? <==> pending > 0
    ensures r.Some? ==> (r.value == "application" <==> pending == 1)
  {
    if pending > 0 then Some(Text.CountNoun(pending, "application", "applications")) else None
  }

  /** The banner shows exactly when some project has an application that is
      pending or under review. */
  lemma BannerIffSomeAwaiting(ps: seq<OwnedProject>)
    ensures PendingBanner(BuilderStatsOf(ps).pendingApplications).Some?
            <==> exists i, a :: 0 <= i < |ps| && a in ps[i].applications && (a == Pending || a == Reviewing)
  {
    Listing.SumPositive(ps, AwaitingOn);
    forall i | 0 <= i < |ps|
      ensures AwaitingOn(ps[i]) > 0 <==> exists a :: a in ps[i].applications && IsAwaiting(a)
    {
      Listing.CountPositive(ps[i].applications, IsAwaiting);
    }
  }

  /** What a project row offers besides "View". */
  datatype RowExtras = RowExtras(applyLink: bool, noApplicationsRow: bool)

  function RowExtrasOf(p: OwnedProject): (r: RowExtras)
    ensures r.applyLink <==> p.status == Published
    ensures r.noApplicationsRow <==> p.status == Published && |p.applications| == 0
    ensures r.noApplicationsRow ==> r.applyLink
  {
    RowExtras(p.status == Published, |p.applications| == 0 && p.status == Published)
  }

  // ---------------------------------------------------------------------
  // Sponsor dashboard

  /** Where the sponsor dashboard sends a visitor. */
  datatype Gate = ToSignIn(url: string) | ToHome | Show

  /** Signed out: sign in and come back. Signed in with any role but
      SPONSOR (ADMIN included, or no user row): home. */
  function SponsorGate(db: Db, session: Session): (r: Gate)
    ensures session.None? <==> r == ToSignIn("/sign-in?callbackUrl=/dashboard/grants")
    ensures r == Show <==> session.Some? && RoleOf(db, session.value) == Some(Sponsor)
    ensures session.Some? && RoleOf(db, session.value) == Some(Admin) ==> r == ToHome
  {
    if session.None? then ToSignIn("/sign-in?callbackUrl=/dashboard/grants")
    else if RoleOf(db, session.value) != Some(Sponsor) then ToHome
    else Show
  }

  /** One of the sponsor's grants with its applications' statuses, newest
      first. */
  datatype SponsorGrant = SponsorGrant(id: Id, status: GrantStatus, amount: int, applications: seq<ApplicationStatus>)

  datatype SponsorStats = SponsorStats(totalGrants: int, openGrants: int, totalApplications: int, totalFunding: int)

  predicate IsOpen(g: SponsorGrant) {
    g.status == Open
  }

  function GrantApplications(g: SponsorGrant): int {
    |g.applications|
  }

  function GrantAmount(g: SponsorGrant): int {
    g.amount
  }

  /** What one grant adds to the counters: itself, itself again if open,
      its applications and its amount. */
  function GrantContribution(g: SponsorGrant): SponsorStats {
    SponsorStats(1, if g.status == Open then 1 else 0, |g.applications|, g.amount)
  }

  /** Counter-by-counter addition. */
  function AddSponsorStats(x: SponsorStats, y: SponsorStats): SponsorStats {
    SponsorStats(x.totalGrants + y.totalGrants, x.openGrants + y.openGrants,
                 x.totalApplications + y.totalApplications, x.totalFunding + y.totalFunding)
  }

  /** The four counters of the sponsor dashboard. */
  function SponsorStatsOf(gs: seq<SponsorGrant>): (r: SponsorStats)
    ensures r.totalGrants == |gs|
    ensures 0 <= r.openGrants <= r.totalGrants
    ensures r.totalApplications >= 0
    ensures (forall i :: 0 <= i < |gs| ==> gs[i].amount > 0) ==> r.totalFunding >= r.totalGrants
    ensures |gs| == 1 ==> r == GrantContribution(gs[0])
  {
    Listing.SumNonNegative(gs, GrantApplications);
    FundingAtLeastOnePerGrant(gs);
    Listing.CountOfOne(gs, IsOpen);
    Listing.SumOfOne(gs, GrantApplications);
    Listing.SumOfOne(gs, GrantAmount);
    SponsorStats(|gs|, Listing.Count(gs, IsOpen), Listing.Sum(gs, GrantApplications), Listing.Sum(gs, GrantAmount))
  }

  /** The counters of two lists of grants add up: every grant contributes
      on its own. */
  lemma SponsorStatsAdd(a: seq<SponsorGrant>, b: seq<SponsorGrant>)
    ensures SponsorStatsOf(a + b) == AddSponsorStats(SponsorStatsOf(a), SponsorStatsOf(b))
  {
    Listing.FilterAppend(a, b, IsOpen);
    Listing.SumAppend(a, b, GrantApplications);
    Listing.SumAppend(a, b, GrantAmount);
  }

  lemma {:induction false} FundingAtLeastOnePerGrant(gs: seq<SponsorGrant>)
    ensures (forall i :: 0 <= i < |gs| ==> gs[i].amount > 0) ==> Listing.Sum(gs, GrantAmount) >= |gs|
  {
    if |gs| > 0 {
      FundingAtLeastOnePerGrant(gs[1..]);
    }
  }

  /** The empty state replaces the list exactly when there is no grant, and
      then every figure is zero. */
  predicate ShowsEmptyState(gs: seq<SponsorGrant>) {
    |gs| == 0
  }

  lemma EmptyStateMeansZeroStats(gs: seq<SponsorGrant>)
    requires ShowsEmptyState(gs)
    ensures SponsorStatsOf(gs) == SponsorStats(0, 0, 0, 0)
  {
  }

  predicate IsPendingOnly(a: ApplicationStatus) {
    a == Pending
  }

  /** The per-grant badge: applications still PENDING (those under review
      are not counted). */
  function PendingBadge(g: SponsorGrant): (r: nat)
    ensures r <= |g.applications|
  {
    Listing.Count(g.applications, IsPendingOnly)
  }

  /** Moving an application to REVIEWING takes it off the badge; adding a
      reviewing one leaves the badge alone. */
  lemma ReviewingNotOnBadge(g: SponsorGrant, i: nat)
    requires i < |g.applications| && g.applications[i] == Pending
    ensures PendingBadge(g.(applications := g.applications[i := Reviewing])) == PendingBadge(g) - 1
    ensures PendingBadge(g.(applications := g.applications + [Reviewing])) == PendingBadge(g)
  {
    var s := g.applications;
    var s' := s[i := Reviewing];
    assert s == s[..i] + [Pending] + s[i + 1..];
    assert s' == s[..i] + [Reviewing] + s[i + 1..];
    CountAppend(s[..i] + [Pending], s[i + 1..]);
    CountAppend(s[..i], [Pending]);
    CountAppend(s[..i] + [Reviewing], s[i + 1..]);
    CountAppend(s[..i], [Reviewing]);
    CountAppend(s, [Reviewing]);
  }

  lemma {:induction false} CountAppend(a: seq<ApplicationStatus>, b: seq<ApplicationStatus>)
    ensures Listing.Count(a + b, IsPendingOnly) == Listing.Count(a, IsPendingOnly) + Listing.Count(b, IsPendingOnly)
  {
    if |a| > 0 {
      assert (a + b)[1..] == a[1..] + b;
      CountAppend(a[1..], b);
    } else {
      assert a + b == b;
    }
  }

  /** The preview under each grant: its first three applications. */
  function Preview(g: SponsorGrant): (r: seq<ApplicationStatus>)
    ensures |r| == Listing.Min(3, |g.applications|)
    ensures r <= g.applications
  {
    Listing.Take(g.applications, 3)
  }
}
