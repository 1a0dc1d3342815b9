/** The leaderboard page and the "top vibecoders" sidebars of the discover
    and forum pages.

    A vibecoder's Vibe Score is the sum of the upvote counts of their
    published projects. The leaderboard lists every vibecoder with at least
    one published project, highest score first, splits off the first three
    as the podium, and totals the per-user figures. The sidebars rank only
    the first 20 such users the store returns and show five of them. */
module Leaderboard {
  import opened Wrappers
  import opened Model
  import Listing

  /** An application as the leaderboard query selects it: its status and
      the amount of the grant it targets. */
  datatype AppRow = AppRow(status: ApplicationStatus, grantAmount: int)

  /** A project with the fields the query selects. */
  datatype ProjectRow = ProjectRow(id: Id, title: string, status: ProjectStatus, upvoteCount: int, applications: seq<AppRow>)

  /** A user with their role and all their projects, in store order. */
  datatype UserRow = UserRow(id: Id, role: Option<Role>, projects: seq<ProjectRow>)

  predicate IsPublished(p: ProjectRow) {
    p.status == Published
  }

  predicate IsApproved(a: AppRow) {
    a.status == Approved
  }

  function Upvotes(p: ProjectRow): int {
    p.upvoteCount
  }

  function Amount(a: AppRow): int {
    a.grantAmount
  }

  /** The user's published projects, in store order. */
  function PublishedOf(u: UserRow): (r: seq<ProjectRow>)
    ensures forall p :: p in r ==> p in u.projects && p.status == Published
    ensures |r| == 0 <==> !exists p :: p in u.projects && p.status == Published
  {
    var r := Listing.Filter(u.projects, IsPublished);
    if |r| == 0 then
      assert forall p :: p in u.projects && p.status == Published ==> p in r by {
        forall p | p in u.projects && p.status == Published
          ensures p in r
        {
          Listing.FilterMembership(u.projects, IsPublished, p);
        }
      }
      r
    else
      assert r[0] in u.projects && r[0].status == Published;
      r
  }

  /** The query's filter: a vibecoder with at least one published project. */
  predicate Eligible(u: UserRow) {
    u.role == Some(Vibecoder) && exists p :: p in u.projects && p.status == Published
  }

  /** The Vibe Score: upvotes summed over published projects. */
  function VibeScore(u: UserRow): int {
    Listing.Sum(PublishedOf(u), Upvotes)
  }

  /** What a project adds to its owner's score. */
  function ScoreContribution(p: ProjectRow): int {
    if p.status == Published then p.upvoteCount else 0
  }

  /** Drafts and archived projects contribute nothing: the score is the sum,
      over all of the user's projects, of the published ones' upvotes. */
  lemma VibeScoreCountsPublishedOnly(u: UserRow)
    ensures VibeScore(u) == Listing.Sum(u.projects, ScoreContribution)
  {
    assert PublishedOf(u) == Listing.Filter(u.projects, IsPublished);
    Listing.SumOfFilter(u.projects, IsPublished, Upvotes, ScoreContribution);
  }

  /** The most upvoted project; on a tie, the first in store order (the
      page sorts the list stably and takes its head). */
  function TopProject(ps: seq<ProjectRow>): (r: Option<ProjectRow>)
    ensures r.Some? <==> |ps| > 0
    ensures r.Some? ==> r.value in ps
    ensures r.Some? ==> forall p :: p in ps ==> p.upvoteCount <= r.value.upvoteCount
    ensures r.Some? ==> exists i :: 0 <= i < |ps| && ps[i] == r.value && forall j :: 0 <= j < i ==> ps[j].upvoteCount < r.value.upvoteCount
  {
    if |ps| == 0 then None
    else
      var i := FirstMax(ps);
      assert ps[i] in ps;
      Some(ps[i])
  }

  /** The position of the first most upvoted project. */
  function FirstMax(ps: seq<ProjectRow>): (i: nat)
    requires |ps| > 0
    ensures i < |ps|
    ensures forall j :: 0 <= j < |ps| ==> ps[j].upvoteCount <= ps[i].upvoteCount
    ensures forall j :: 0 <= j < i ==> ps[j].upvoteCount < ps[i].upvoteCount
  {
    if |ps| == 1 then 0
    else
      var k := FirstMax(ps[1..]) + 1;
      assert forall j :: 1 <= j < |ps| ==> ps[j] == ps[1..][j - 1];
      if ps[0].upvoteCount >= ps[k].upvoteCount then 0 else k
  }

  /** Approved applications on one project. */
  function Approvals(p: ProjectRow): int {
    Listing.Count(p.applications, IsApproved)
  }

  /** The amounts of the grants approved for one project. */
  function ApprovedAmount(p: ProjectRow): int {
    Listing.Sum(Listing.Filter(p.applications, IsApproved), Amount)
  }

  /** Every application on the given projects, project by project. */
  function AllApps(ps: seq<ProjectRow>): seq<AppRow> {
    if |ps| == 0 then [] else ps[0].applications + AllApps(ps[1..])
  }

  /** Adding up the per-project figures is the same as counting, and
      adding up the amounts of, the approved applications across all the
      projects at once. */
  lemma {:induction false} PerProjectFigures(ps: seq<ProjectRow>)
    ensures Listing.Sum(ps, Approvals) == Listing.Count(AllApps(ps), IsApproved)
    ensures Listing.Sum(ps, ApprovedAmount) == Listing.Sum(Listing.Filter(AllApps(ps), IsApproved), Amount)
  {
    if |ps| > 0 {
      var here, later := ps[0].applications, AllApps(ps[1..]);
      assert AllApps(ps) == here + later;
      PerProjectFigures(ps[1..]);
      Listing.FilterAppend(here, later, IsApproved);
      Listing.SumAppend(Listing.Filter(here, IsApproved), Listing.Filter(later, IsApproved), Amount);
      assert Listing.Sum(ps, Approvals) == Approvals(ps[0]) + Listing.Sum(ps[1..], Approvals);
      assert Listing.Sum(ps, ApprovedAmount) == ApprovedAmount(ps[0]) + Listing.Sum(ps[1..], ApprovedAmount);
    }
  }

  /** One leaderboard row. */
  datatype Entry = Entry(
    userId: Id,
    vibeScore: int,
    projectCount: nat,
    grantsReceived: int,
    totalGrantAmount: int,
    topProject: Option<ProjectRow>)

  /** The per-user figures. */
  function EntryOf(u: UserRow): (e: Entry)
    ensures e.userId == u.id
    ensures e.vibeScore == VibeScore(u)
    ensures e.projectCount == |PublishedOf(u)|
    ensures Eligible(u) ==> e.projectCount >= 1 && e.topProject.Some?
    ensures e.topProject.Some? ==> e.topProject.value.status == Published && e.topProject.value in u.projects
    ensures e.grantsReceived >= 0
    ensures e.grantsReceived == Listing.Count(AllApps(PublishedOf(u)), IsApproved)
    ensures e.totalGrantAmount == Listing.Sum(Listing.Filter(AllApps(PublishedOf(u)), IsApproved), Amount)
  {
    var pub := PublishedOf(u);
    Listing.SumNonNegative(pub, Approvals);
    PerProjectFigures(pub);
    Entry(u.id, VibeScore(u), |pub|, Listing.Sum(pub, Approvals), Listing.Sum(pub, ApprovedAmount), TopProject(pub))
  }

  /** A user with no approved grant has no granted amount. */
  lemma NoGrantsNoAmount(u: UserRow)
    requires EntryOf(u).grantsReceived == 0
    ensures EntryOf(u).totalGrantAmount == 0
  {
    var pub := PublishedOf(u);
    forall i | 0 <= i < |pub|
      ensures ApprovedAmount(pub[i]) == 0
    {
      Listing.SumZero(pub, Approvals, i);
    }
    Listing.SumAgrees(pub, ApprovedAmount, _ => 0);
    ZeroSum(pub);
  }

  lemma {:induction false} ZeroSum(s: seq<ProjectRow>)
    ensures Listing.Sum(s, _ => 0) == 0
  {
    if |s| > 0 {
      ZeroSum(s[1..]);
    }
  }

  function ScoreKey(e: Entry): int {
    e.vibeScore
  }

  /** The page's ordering: highest score first. */
  function ByScore(): (Entry, Entry) -> bool {
    Listing.Desc([ScoreKey])
  }

  /** The leaderboard: eligible users' entries, highest score first. */
  function Rank(users: seq<UserRow>): (r: seq<Entry>)
    ensures |r| == Listing.Count(users, Eligible)
    ensures multiset(r) == multiset(Listing.Map(Listing.Filter(users, Eligible), EntryOf))
    ensures forall i, j :: 0 <= i < j < |r| ==> r[i].vibeScore >= r[j].vibeScore
  {
    Listing.DescIsTotalPreorder([ScoreKey]);
    var r := Listing.SortBy(Listing.Map(Listing.Filter(users, Eligible), EntryOf), ByScore());
    Listing.SortedDescLeadingKey(r, [ScoreKey]);
    r
  }

  /** A row is on the leaderboard exactly when it belongs to an eligible
      user. */
  lemma RankMembers(users: seq<UserRow>, e: Entry)
    ensures e in Rank(users) <==> exists u :: u in users && Eligible(u) && EntryOf(u) == e
  {
    var eligible := Listing.Filter(users, Eligible);
    var mapped := Listing.Map(eligible, EntryOf);
    assert e in Rank(users) <==> e in mapped by {
      assert multiset(Rank(users)) == multiset(mapped);
      assert e in Rank(users) <==> e in multiset(Rank(users));
      assert e in mapped <==> e in multiset(mapped);
    }
    Listing.MapMembership(eligible, EntryOf, e);
    forall u
      ensures u in eligible <==> u in users && Eligible(u)
    {
      Listing.FilterMembership(users, Eligible, u);
    }
  }

  /** The first three rows. */
  function Podium(l: seq<Entry>): (r: seq<Entry>)
    ensures r <= l && |r| <= 3
  {
    Listing.Take(l, 3)
  }

  /** Everything after the podium. The page computes this list into a
      variable it never reads: its ranking table is drawn from the whole
      ranking (`Numbered`), podium included. */
  function Rest(l: seq<Entry>): (r: seq<Entry>)
    ensures |r| == |l| - |Podium(l)|
  {
    l[Listing.Min(3, |l|)..]
  }

  /** The podium and the rest make up the leaderboard; on the leaderboard
      every podium score is at least every other score. */
  lemma PodiumSplit(users: seq<UserRow>)
    ensures Podium(Rank(users)) + Rest(Rank(users)) == Rank(users)
    ensures forall x, y :: x in Podium(Rank(users)) && y in Rest(Rank(users)) ==> x.vibeScore >= y.vibeScore
  {
    PodiumAbove(Rank(users));
  }

  lemma PodiumAbove(l: seq<Entry>)
    requires forall i, j :: 0 <= i < j < |l| ==> l[i].vibeScore >= l[j].vibeScore
    ensures Podium(l) + Rest(l) == l
    ensures forall x, y :: x in Podium(l) && y in Rest(l) ==> x.vibeScore >= y.vibeScore
  {
    forall x, y | x in Podium(l) && y in Rest(l)
      ensures x.vibeScore >= y.vibeScore
    {
      var i :| 0 <= i < |Podium(l)| && Podium(l)[i] == x;
      var j :| 0 <= j < |Rest(l)| && Rest(l)[j] == y;
      assert l[i] == x && l[|Podium(l)| + j] == y;
    }
  }

  /** The podium block is drawn only for a full podium. */
  predicate ShowsPodium(l: seq<Entry>) {
    |Podium(l)| >= 3
  }

  lemma ShowsPodiumIff(l: seq<Entry>)
    ensures ShowsPodium(l) <==> |l| >= 3
    ensures ShowsPodium(l) ==> Podium(l) == l[..3]
  {
  }

  /** The table's rows: each entry with its displayed rank. */
  function Numbered(l: seq<Entry>): (r: seq<(int, Entry)>)
    ensures |r| == |l|
    ensures forall i :: 0 <= i < |r| ==> r[i].1 == l[i] && r[i].0 == i + 1
  {
    seq(|l|, i requires 0 <= i < |l| => (i + 1, l[i]))
  }

  /** On the leaderboard, ranks run 1, 2, … without gaps, and a better
      (smaller) rank never has a lower score. */
  lemma RanksFollowScores(users: seq<UserRow>)
    ensures var r := Numbered(Rank(users));
            && (|r| > 0 ==> r[0].0 == 1)
            && (forall i :: 0 < i < |r| ==> r[i].0 == r[i - 1].0 + 1)
            && (forall i, j :: 0 <= i < j < |r| ==> r[i].0 < r[j].0 && r[i].1.vibeScore >= r[j].1.vibeScore)
  {
    NumberedBySorted(Rank(users));
  }

  lemma NumberedBySorted(l: seq<Entry>)
    requires forall i, j :: 0 <= i < j < |l| ==> l[i].vibeScore >= l[j].vibeScore
    ensures var r := Numbered(l);
            && (|r| > 0 ==> r[0].0 == 1)
            && (forall i :: 0 < i < |r| ==> r[i].0 == r[i - 1].0 + 1)
            && (forall i, j :: 0 <= i < j < |r| ==> r[i].0 < r[j].0 && r[i].1.vibeScore >= r[j].1.vibeScore)
  {
  }

  /** The page's summary figures. */
  datatype Totals = Totals(vibeScore: int, projects: int, grants: int)

  function ProjectsKey(e: Entry): int {
    e.projectCount
  }

  function GrantsKey(e: Entry): int {
    e.grantsReceived
  }

  function TotalsOf(l: seq<Entry>): Totals {
    Totals(Listing.Sum(l, ScoreKey), Listing.Sum(l, ProjectsKey), Listing.Sum(l, GrantsKey))
  }

  /** What an eligible user adds to the totals. */
  function EligibleScore(u: UserRow): int {
    if Eligible(u) then VibeScore(u) else 0
  }

  function EligibleProjects(u: UserRow): int {
    if Eligible(u) then |PublishedOf(u)| else 0
  }

  function PublishedCount(u: UserRow): int {
    |PublishedOf(u)|
  }

  /** The total score does not depend on the ranking: it is the sum, over
      every eligible user in store order, of their score. */
  lemma TotalScoreOrderFree(users: seq<UserRow>)
    ensures TotalsOf(Rank(users)).vibeScore == Listing.Sum(users, EligibleScore)
  {
    var eligible := Listing.Filter(users, Eligible);
    var mapped := Listing.Map(eligible, EntryOf);
    Listing.SumOfPermutation(Rank(users), mapped, ScoreKey);
    Listing.SumOfMap(eligible, EntryOf, ScoreKey, VibeScore);
    Listing.SumOfFilter(users, Eligible, VibeScore, EligibleScore);
  }

  /** Likewise the project total is the number of published projects of
      all eligible users. */
  lemma TotalProjectsOrderFree(users: seq<UserRow>)
    ensures TotalsOf(Rank(users)).projects == Listing.Sum(users, EligibleProjects)
  {
    var eligible := Listing.Filter(users, Eligible);
    var mapped := Listing.Map(eligible, EntryOf);
    Listing.SumOfPermutation(Rank(users), mapped, ProjectsKey);
    Listing.SumOfMap(eligible, EntryOf, ProjectsKey, PublishedCount);
    Listing.SumOfFilter(users, Eligible, PublishedCount, EligibleProjects);
  }

  // ---------------------------------------------------------------------
  // Sidebars on the discover and forum pages

  function UserScoreKey(u: UserRow): int {
    VibeScore(u)
  }

  /** The first 20 eligible users in store order (`take: 20`). */
  function Fetched(users: seq<UserRow>): seq<UserRow> {
    Listing.Take(Listing.Filter(users, Eligible), 20)
  }

  /** Everyone fetched is eligible. */
  lemma FetchedEligible(users: seq<UserRow>)
    ensures forall u :: u in Fetched(users) ==> Eligible(u)
  {
    forall u | u in Fetched(users)
      ensures Eligible(u)
    {
      Listing.FilterMembership(users, Eligible, u);
    }
  }

  /** The sidebar: the fetched users ranked by score, first five. */
  function TopVibecoders(users: seq<UserRow>): (r: seq<UserRow>)
    ensures |r| == Listing.Min(5, |Fetched(users)|)
    ensures multiset(r) <= multiset(Fetched(users))
    ensures forall u :: u in r ==> u in Fetched(users) && Eligible(u)
    ensures forall i, j :: 0 <= i < j < |r| ==> UserScoreKey(r[i]) >= UserScoreKey(r[j])
    ensures forall x, y :: x in r && y in multiset(Fetched(users)) - multiset(r) ==> UserScoreKey(x) >= UserScoreKey(y)
  {
    FetchedEligible(users);
    Listing.TopDesc(Fetched(users), UserScoreKey, 5)
  }

  /** With at most 20 vibecoders the sidebar shows the five best overall. */
  lemma TopVibecodersAreBestWhenFew(users: seq<UserRow>)
    requires Listing.Count(users, Eligible) <= 20
    ensures forall x, y :: x in TopVibecoders(users) && y in multiset(Listing.Filter(users, Eligible)) - multiset(TopVibecoders(users))
              ==> VibeScore(x) >= VibeScore(y)
  {
    var all := Listing.Filter(users, Eligible);
    assert Fetched(users) == all by {
      assert all[..|all|] == all;
    }
    var r := TopVibecoders(users);
    forall x, y | x in r && y in multiset(all) - multiset(r)
      ensures VibeScore(x) >= VibeScore(y)
    {
      assert UserScoreKey(x) >= UserScoreKey(y);
    }
  }

  /** With more, a vibecoder the store returns after the first 20 is never
      shown, whatever their score. */
  lemma LaterVibecodersNeverShown(users: seq<UserRow>, u: UserRow)
    requires u !in Fetched(users)
    ensures u !in TopVibecoders(users)
  {
  }
}
