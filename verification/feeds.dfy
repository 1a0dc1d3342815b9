/** The browsing pages: the discover page (category filter, sort choice,
    trending strip), the reusable project list, and the forum index
    (category filter, pinned-first ordering, per-category counts). The
    "top vibecoders" sidebars of the discover and forum pages are
    `Leaderboard.TopVibecoders`. */
module Feeds {
  import opened Wrappers
  import opened Model
  import Listing
  import Validation
  import Votes
  import Forum

  /** `value || fallback`: an absent or empty parameter takes the default. */
  function OrDefault(value: Option<string>, fallback: string): (r: string)
    ensures value.None? || value.value == "" ==> r == fallback
    ensures value.Some? && value.value != "" ==> r == value.value
  {
    if value.Some? && value.value != "" then value.value else fallback
  }

  // ---------------------------------------------------------------------
  // Project orderings shared by the discover page and the project list

  function UpvoteKey(p: Project): int {
    p.upvoteCount
  }

  function CreatedKey(p: Project): int {
    p.createdAt
  }

  /** The sort choice as `orderBy` keys: "newest" is by creation time,
      "mostUpvoted" by upvotes, anything else ("trending") by upvotes and
      then creation time. */
  function ProjectKeys(sortBy: string): (keys: seq<Project -> int>)
    ensures 1 <= |keys| <= 2
  {
    if sortBy == "newest" then [CreatedKey]
    else if sortBy == "mostUpvoted" then [UpvoteKey]
    else [UpvoteKey, CreatedKey]
  }

  /** Whatever the sort choice, the listed order respects its keys. */
  lemma OrderFollowsSort(l: seq<Project>, sortBy: string)
    requires Listing.Sorted(l, Listing.Desc(ProjectKeys(sortBy)))
    ensures sortBy == "newest" ==> forall i, j :: 0 <= i < j < |l| ==> l[i].createdAt >= l[j].createdAt
    ensures sortBy != "newest" ==> forall i, j :: 0 <= i < j < |l| ==> l[i].upvoteCount >= l[j].upvoteCount
    ensures sortBy != "newest" && sortBy != "mostUpvoted" ==>
              forall i, j :: 0 <= i < j < |l| && l[i].upvoteCount == l[j].upvoteCount ==> l[i].createdAt >= l[j].createdAt
  {
    Listing.SortedDescLeadingKey(l, ProjectKeys(sortBy));
    if sortBy != "newest" && sortBy != "mostUpvoted" {
      Listing.SortedDescTwoKeys(l, UpvoteKey, CreatedKey);
    }
  }

  /** `orderBy` then `take: n` over a pool of projects. */
  function Feed(pool: seq<Project>, sortBy: string, n: nat): (r: seq<Project>)
    ensures |r| == Listing.Min(n, |pool|)
    ensures multiset(r) <= multiset(pool)
    ensures |pool| <= n ==> multiset(r) == multiset(pool)
    ensures forall p :: p in r ==> p in pool
    ensures Listing.Sorted(r, Listing.Desc(ProjectKeys(sortBy)))
    ensures forall x, y :: x in r && y in multiset(pool) - multiset(r) ==> Listing.Desc(ProjectKeys(sortBy))(x, y)
  {
    Listing.DescIsTotalPreorder(ProjectKeys(sortBy));
    var r := Listing.Top(pool, Listing.Desc(ProjectKeys(sortBy)), n);
    assert forall p :: p in r ==> p in multiset(r);
    r
  }

  // ---------------------------------------------------------------------
  // Discover page

  /** The category filter: "ALL" keeps every published project, any other
      value keeps the published projects of that category. */
  predicate InCategory(p: Project, selected: string) {
    p.status == Published && (selected == "ALL" || Validation.CategoryValue(p.category) == selected)
  }

  function InSelected(projects: seq<Project>, selected: string): (r: seq<Project>)
    ensures forall p :: p in r <==> p in projects && InCategory(p, selected)
    ensures multiset(r) <= multiset(projects)
  {
    var keep := p => InCategory(p, selected);
    Listing.FilterExact(projects, keep);
    Listing.Filter(projects, keep)
  }

  /** The main grid: the first 30 projects of the selected category in the
      chosen order (all of them when there are fewer); none left out ranks
      above one shown. */
  function DiscoverFeed(projects: seq<Project>, category: Option<string>, sort: Option<string>): (r: seq<Project>)
    ensures |r| == Listing.Min(30, |InSelected(projects, OrDefault(category, "ALL"))|)
    ensures multiset(r) <= multiset(InSelected(projects, OrDefault(category, "ALL")))
    ensures forall p :: p in r ==> p in projects && InCategory(p, OrDefault(category, "ALL"))
    ensures Listing.Sorted(r, Listing.Desc(ProjectKeys(OrDefault(sort, "trending"))))
    ensures forall x, y :: x in r && y in multiset(InSelected(projects, OrDefault(category, "ALL"))) - multiset(r) ==>
              Listing.Desc(ProjectKeys(OrDefault(sort, "trending")))(x, y)
  {
    Feed(InSelected(projects, OrDefault(category, "ALL")), OrDefault(sort, "trending"), 30)
  }

  /** While the selected category has at most 30 published projects, the
      grid shows exactly those projects. */
  lemma {:induction false} DiscoverShowsAllWhenFew(projects: seq<Project>, category: Option<string>, sort: Option<string>)
    requires |InSelected(projects, OrDefault(category, "ALL"))| <= 30
    ensures forall p :: p in DiscoverFeed(projects, category, sort) <==> p in projects && InCategory(p, OrDefault(category, "ALL"))
  {
    var m := InSelected(projects, OrDefault(category, "ALL"));
    var r := DiscoverFeed(projects, category, sort);
    assert multiset(r) == multiset(m);
    forall p
      ensures p in r <==> p in m
    {
      assert p in r <==> p in multiset(r);
      assert p in m <==> p in multiset(m);
    }
  }

  /** Without parameters the page shows every category, trending first. */
  lemma DiscoverDefaults(projects: seq<Project>)
    ensures DiscoverFeed(projects, None, None) == DiscoverFeed(projects, Some("ALL"), Some("trending"))
    ensures DiscoverFeed(projects, Some(""), Some("")) == DiscoverFeed(projects, None, None)
  {
  }

  /** One week in milliseconds. */
  const WeekMs := 7 * 24 * 60 * 60 * 1000

  /** Published and created within the last week. */
  predicate IsRecent(p: Project, now: Time) {
    p.status == Published && p.createdAt >= now - WeekMs
  }

  function Recent(projects: seq<Project>, now: Time): (r: seq<Project>)
    ensures forall p :: p in r <==> p in projects && IsRecent(p, now)
    ensures multiset(r) <= multiset(projects)
  {
    var keep := p => IsRecent(p, now);
    Listing.FilterExact(projects, keep);
    Listing.Filter(projects, keep)
  }

  /** The five most upvoted recent projects (all of them when there are
      fewer). */
  function Trending(projects: seq<Project>, now: Time): (r: seq<Project>)
    ensures |r| == Listing.Min(5, |Recent(projects, now)|)
    ensures multiset(r) <= multiset(Recent(projects, now))
    ensures multiset(r) <= multiset(projects)
    ensures forall p :: p in r ==> p in projects && IsRecent(p, now)
    ensures forall i, j :: 0 <= i < j < |r| ==> UpvoteKey(r[i]) >= UpvoteKey(r[j])
    ensures forall x, y :: x in r && y in multiset(Recent(projects, now)) - multiset(r) ==> UpvoteKey(x) >= UpvoteKey(y)
  {
    Listing.TopDesc(Recent(projects, now), UpvoteKey, 5)
  }

  /** The trending strip: the first three, only on the unfiltered view and
      only when there is something to show. */
  function TrendingShown(trending: seq<Project>, selected: string): (r: seq<Project>)
    ensures selected == "ALL" ==> r == Listing.Take(trending, 3)
    ensures selected != "ALL" ==> r == []
    ensures r != [] <==> selected == "ALL" && trending != []
  {
    if |trending| > 0 && selected == "ALL" then Listing.Take(trending, 3) else []
  }

  /** A project older than a week is never trending, however many votes it
      has. */
  lemma OldProjectsNeverTrend(projects: seq<Project>, now: Time, p: Project)
    requires p.createdAt < now - WeekMs
    ensures p !in Trending(projects, now)
  {
  }

  /** The card's highlighted state: the viewer has a live vote on the
      target. Nobody signed in sees it off. */
  predicate UserUpvoted(db: Db, kind: Votes.TargetKind, session: Session, target: Id) {
    session.Some? && Fact(session.value, target) in Votes.Facts(db, kind)
  }

  /** After a successful toggle the card's state is what the toggle
      reported. */
  lemma UpvotedAfterToggle(db: Db, kind: Votes.TargetKind, user: Id, target: Id)
    ensures var (db', r) := Votes.Toggle(db, kind, Some(user), target);
            r.Success? ==> UserUpvoted(db', kind, Some(user), target) == r.value.upvoted
    ensures !UserUpvoted(db, kind, None, target)
  {
  }

  // ---------------------------------------------------------------------
  // Project list component

  predicate IsPublished(p: Project) {
    p.status == Published
  }

  function PublishedProjects(projects: seq<Project>): (r: seq<Project>)
    ensures forall p :: p in r <==> p in projects && p.status == Published
    ensures multiset(r) <= multiset(projects)
  {
    Listing.FilterExact(projects, IsPublished);
    Listing.Filter(projects, IsPublished)
  }

  /** Each listed project with its 1-based rank. */
  function Ranked(l: seq<Project>): (r: seq<(int, Project)>)
    ensures |r| == |l|
    ensures forall i :: 0 <= i < |r| ==> r[i] == (i + 1, l[i])
  {
    seq(|l|, i requires 0 <= i < |l| => (i + 1, l[i]))
  }

  /** The projects of a ranked list, ranks dropped. */
  function Unranked(r: seq<(int, Project)>): (l: seq<Project>)
    ensures |l| == |r|
    ensures forall i :: 0 <= i < |l| ==> l[i] == r[i].1
  {
    seq(|r|, i requires 0 <= i < |r| => r[i].1)
  }

  /** Dropping the ranks gives back the list that was ranked. */
  lemma UnrankRanked(l: seq<Project>)
    ensures Unranked(Ranked(l)) == l
  {
  }

  /** `<ProjectList limit sortBy />`: published projects only, the first
      `limit` (default 10) of them in the chosen order (default
      "trending"), ranked from 1; none left out ranks above one listed. */
  function ProjectList(projects: seq<Project>, limit: Option<nat>, sortBy: Option<string>): (r: seq<(int, Project)>)
    ensures |r| == Listing.Min(limit.GetOr(10), |PublishedProjects(projects)|)
    ensures forall i :: 0 <= i < |r| ==> r[i].0 == i + 1 && r[i].1 in projects && r[i].1.status == Published
    ensures multiset(Unranked(r)) <= multiset(PublishedProjects(projects))
    ensures Listing.Sorted(Unranked(r), Listing.Desc(ProjectKeys(sortBy.GetOr("trending"))))
    ensures forall x, y :: x in Unranked(r) && y in multiset(PublishedProjects(projects)) - multiset(Unranked(r)) ==>
              Listing.Desc(ProjectKeys(sortBy.GetOr("trending")))(x, y)
  {
    var l := Feed(PublishedProjects(projects), sortBy.GetOr("trending"), limit.GetOr(10));
    ProjectListFacts(projects, l);
    UnrankRanked(l);
    Ranked(l)
  }

  lemma ProjectListFacts(projects: seq<Project>, l: seq<Project>)
    requires forall p :: p in l ==> p in PublishedProjects(projects)
    ensures forall i :: 0 <= i < |l| ==> l[i] in projects && l[i].status == Published
  {
    forall i | 0 <= i < |l|
      ensures l[i] in projects && l[i].status == Published
    {
      assert l[i] in l;
    }
  }

  /** The empty state shows exactly when no project is published. */
  lemma ProjectListEmptyIff(projects: seq<Project>, limit: Option<nat>, sortBy: Option<string>)
    requires limit.GetOr(10) > 0
    ensures ProjectList(projects, limit, sortBy) == [] <==> forall p :: p in projects ==> p.status != Published
  {
    Listing.CountPositive(projects, IsPublished);
  }

  // ---------------------------------------------------------------------
  // Forum index

  /** The forum's category parameter: absent, empty or "ALL" means no
      filter. */
  function ForumFilter(category: Option<string>): (r: Option<string>)
    ensures r.None? <==> category.None? || category.value == "" || category.value == "ALL"
    ensures r.Some? ==> r == category
  {
    if category.Some? && category.value != "" && category.value != "ALL" then category else None
  }

  predicate InForumCategory(t: Thread, filter: Option<string>) {
    filter.None? || Forum.ThreadCategoryValue(t.category) == filter.value
  }

  function Filtered(threads: seq<Thread>, filter: Option<string>): (r: seq<Thread>)
    ensures forall t :: t in r <==> t in threads && InForumCategory(t, filter)
    ensures multiset(r) <= multiset(threads)
  {
    var keep := t => InForumCategory(t, filter);
    Listing.FilterExact(threads, keep);
    Listing.Filter(threads, keep)
  }

  function PinnedKey(t: Thread): int {
    if t.isPinned then 1 else 0
  }

  function ThreadUpvoteKey(t: Thread): int {
    t.upvoteCount
  }

  function ThreadCreatedKey(t: Thread): int {
    t.createdAt
  }

  /** `orderBy: [{isPinned: "desc"}, {upvoteCount: "desc"}, {createdAt:
      "desc"}]`. */
  function ThreadOrder(): (Thread, Thread) -> bool {
    Listing.Desc([PinnedKey, ThreadUpvoteKey, ThreadCreatedKey])
  }

  /** The thread list: the first 30 of the filtered threads, pinned
      threads first, then by upvotes, then newest first; none left out ranks
      above one shown. */
  function ForumThreads(threads: seq<Thread>, category: Option<string>): (r: seq<Thread>)
    ensures |r| == Listing.Min(30, |Filtered(threads, ForumFilter(category))|)
    ensures multiset(r) <= multiset(Filtered(threads, ForumFilter(category)))
    ensures forall t :: t in r ==> t in threads && InForumCategory(t, ForumFilter(category))
    ensures forall i, j :: 0 <= i < j < |r| && r[j].isPinned ==> r[i].isPinned
    ensures forall i, j :: 0 <= i < j < |r| && r[i].isPinned == r[j].isPinned ==> r[i].upvoteCount >= r[j].upvoteCount
    ensures forall i, j :: 0 <= i < j < |r| && r[i].isPinned == r[j].isPinned && r[i].upvoteCount == r[j].upvoteCount ==>
              r[i].createdAt >= r[j].createdAt
    ensures forall x, y :: x in r && y in multiset(Filtered(threads, ForumFilter(category))) - multiset(r) ==>
              ThreadOrder()(x, y)
  {
    var m := Filtered(threads, ForumFilter(category));
    var r := Listing.Top(m, ThreadOrder(), 30);
    ForumThreadsFacts(m, r);
    r
  }

  lemma ForumThreadsFacts(m: seq<Thread>, r: seq<Thread>)
    requires r == Listing.Top(m, ThreadOrder(), 30)
    ensures forall t :: t in r ==> t in m
    ensures forall x, y :: x in r && y in multiset(m) - multiset(r) ==> ThreadOrder()(x, y)
    ensures forall i, j :: 0 <= i < j < |r| && r[j].isPinned ==> r[i].isPinned
    ensures forall i, j :: 0 <= i < j < |r| && r[i].isPinned == r[j].isPinned ==> r[i].upvoteCount >= r[j].upvoteCount
    ensures forall i, j :: 0 <= i < j < |r| && r[i].isPinned == r[j].isPinned && r[i].upvoteCount == r[j].upvoteCount ==>
              r[i].createdAt >= r[j].createdAt
  {
    var keys := [PinnedKey, ThreadUpvoteKey, ThreadCreatedKey];
    Listing.DescIsTotalPreorder(keys);
    forall t | t in r
      ensures t in m
    {
      assert t in multiset(r);
    }
    forall i, j | 0 <= i < j < |r|
      ensures r[j].isPinned ==> r[i].isPinned
      ensures r[i].isPinned == r[j].isPinned ==> r[i].upvoteCount >= r[j].upvoteCount
      ensures r[i].isPinned == r[j].isPinned && r[i].upvoteCount == r[j].upvoteCount ==> r[i].createdAt >= r[j].createdAt
    {
      assert Listing.KeysDesc(r[i], r[j], keys);
      assert keys[1..] == [ThreadUpvoteKey, ThreadCreatedKey];
      if PinnedKey(r[i]) == PinnedKey(r[j]) {
        Listing.KeysDescTwo(r[i], r[j], ThreadUpvoteKey, ThreadCreatedKey);
      }
    }
  }

  function IsIn(c: ThreadCategory): Thread -> bool {
    (t: Thread) => t.category == c
  }

  /** The count on a category card: threads in that category across the
      whole forum (0 when there are none). */
  function CategoryCount(threads: seq<Thread>, c: ThreadCategory): nat {
    Listing.Count(threads, IsIn(c))
  }

  /** The four cards' counts add up to the number of threads. */
  lemma {:induction false} CountsCoverAllThreads(threads: seq<Thread>)
    ensures CategoryCount(threads, General) + CategoryCount(threads, VibeChecks)
            + CategoryCount(threads, ShowTell) + CategoryCount(threads, Technical) == |threads|
  {
    if |threads| > 0 {
      CountsCoverAllThreads(threads[1..]);
      Listing.CountCons(threads, IsIn(General));
      Listing.CountCons(threads, IsIn(VibeChecks));
      Listing.CountCons(threads, IsIn(ShowTell));
      Listing.CountCons(threads, IsIn(Technical));
    }
  }

  /** A category card's link: the active card clears the filter, the others
      select their category. */
  function CategoryHref(selected: Option<string>, c: ThreadCategory): (href: string)
    ensures selected == Some(Forum.ThreadCategoryValue(c)) ==> href == "/forum"
    ensures selected != Some(Forum.ThreadCategoryValue(c)) ==> href == "/forum?category=" + Forum.ThreadCategoryValue(c)
  {
    if selected == Some(Forum.ThreadCategoryValue(c)) then "/forum" else "/forum?category=" + Forum.ThreadCategoryValue(c)
  }

  /** Following an inactive card's link filters the list to that category. */
  lemma CardLinkSelectsCategory(threads: seq<Thread>, c: ThreadCategory)
    ensures forall t :: t in ForumThreads(threads, Some(Forum.ThreadCategoryValue(c))) ==> t.category == c
  {
    forall t | t in ForumThreads(threads, Some(Forum.ThreadCategoryValue(c)))
      ensures t.category == c
    {
      Forum.ThreadCategoryRoundTrip(t.category);
      Forum.ThreadCategoryRoundTrip(c);
    }
  }
}
