/** The search page: a trimmed query, matched case-insensitively against
    published projects (20 most upvoted) and open grants (10 largest). */
module Search {
  import opened Wrappers
  import opened Model
  import Listing
  import Text

  /** The query as the page uses it: `q?.trim() || ""`. */
  function QueryOf(q: Option<string>): (r: string)
    ensures r == "" <==> Text.IsBlank(q.GetOr(""))
  {
    Text.TrimEmptyIffBlank(q.GetOr(""));
    Text.Trim(q.GetOr(""))
  }

  /** A published project whose title, tagline or description contains the
      query ignoring case, or whose tech stack holds the lower-cased query
      as an entry. */
  predicate ProjectMatches(p: Project, q: string) {
    && p.status == Published
    && (|| Text.ContainsInsensitive(p.title, q)
        || Text.ContainsInsensitive(p.tagline, q)
        || Text.ContainsInsensitive(p.description, q)
        || Text.Lower(q) in p.techStack)
  }

  /** An open grant whose title or description contains the query ignoring
      case. */
  predicate GrantMatches(g: Grant, q: string) {
    g.status == Open && (Text.ContainsInsensitive(g.title, q) || Text.ContainsInsensitive(g.description, q))
  }

  /** The projects the query matches, in store order. */
  function MatchingProjects(projects: seq<Project>, q: string): (r: seq<Project>)
    ensures forall p :: p in r <==> p in projects && ProjectMatches(p, q)
    ensures multiset(r) <= multiset(projects)
  {
    var keep := p => ProjectMatches(p, q);
    Listing.FilterExact(projects, keep);
    Listing.Filter(projects, keep)
  }

  /** The grants the query matches, in store order. */
  function MatchingGrants(grants: seq<Grant>, q: string): (r: seq<Grant>)
    ensures forall g :: g in r <==> g in grants && GrantMatches(g, q)
    ensures multiset(r) <= multiset(grants)
  {
    var keep := g => GrantMatches(g, q);
    Listing.FilterExact(grants, keep);
    Listing.Filter(grants, keep)
  }

  function UpvoteKey(p: Project): int {
    p.upvoteCount
  }

  function AmountKey(g: Grant): int {
    g.amount
  }

  const ProjectLimit := 20
  const GrantLimit := 10

  /** The project results: the 20 most upvoted matches. */
  function ProjectResults(projects: seq<Project>, query: string): (r: seq<Project>)
    ensures |r| == Listing.Min(ProjectLimit, |MatchingProjects(projects, query)|)
    ensures multiset(r) <= multiset(MatchingProjects(projects, query))
    ensures |MatchingProjects(projects, query)| <= ProjectLimit ==> multiset(r) == multiset(MatchingProjects(projects, query))
    ensures forall p :: p in r ==> p in projects && ProjectMatches(p, query)
    ensures forall i, j :: 0 <= i < j < |r| ==> UpvoteKey(r[i]) >= UpvoteKey(r[j])
    ensures forall x, y :: x in r && y in multiset(MatchingProjects(projects, query)) - multiset(r)
              ==> UpvoteKey(x) >= UpvoteKey(y)
  {
    Listing.TopDesc(MatchingProjects(projects, query), UpvoteKey, ProjectLimit)
  }

  /** The grant results: the 10 largest matches. */
  function GrantResults(grants: seq<Grant>, query: string): (r: seq<Grant>)
    ensures |r| == Listing.Min(GrantLimit, |MatchingGrants(grants, query)|)
    ensures multiset(r) <= multiset(MatchingGrants(grants, query))
    ensures |MatchingGrants(grants, query)| <= GrantLimit ==> multiset(r) == multiset(MatchingGrants(grants, query))
    ensures forall g :: g in r ==> g in grants && GrantMatches(g, query)
    ensures forall i, j :: 0 <= i < j < |r| ==> AmountKey(r[i]) >= AmountKey(r[j])
    ensures forall x, y :: x in r && y in multiset(MatchingGrants(grants, query)) - multiset(r)
              ==> AmountKey(x) >= AmountKey(y)
  {
    Listing.TopDesc(MatchingGrants(grants, query), AmountKey, GrantLimit)
  }

  datatype Outcome =
    | EmptyQuery
    | Results(query: string, projects: seq<Project>, grants: seq<Grant>)

  /** The page. A blank query shows the empty state and searches nothing;
      otherwise the trimmed query is searched for. */
  function SearchPage(projects: seq<Project>, grants: seq<Grant>, q: Option<string>): (r: Outcome)
    ensures r.EmptyQuery? <==> Text.IsBlank(q.GetOr(""))
    ensures r.Results? ==>
              && r.query == QueryOf(q) && r.query != ""
              && r.projects == ProjectResults(projects, r.query)
              && r.grants == GrantResults(grants, r.query)
  {
    var query := QueryOf(q);
    if query == "" then EmptyQuery
    else Results(query, ProjectResults(projects, query), GrantResults(grants, query))
  }

  /** Spaces around the query change nothing. */
  lemma SurroundingSpaceIgnored(projects: seq<Project>, grants: seq<Grant>, q: string)
    ensures SearchPage(projects, grants, Some(q)) == SearchPage(projects, grants, Some(Text.Trim(q)))
  {
    Text.TrimIdempotent(q);
  }

  /** Matching ignores the query's case: a lower-cased query matches the
      same projects and grants. */
  lemma MatchIgnoresQueryCase(p: Project, g: Grant, q: string)
    ensures ProjectMatches(p, Text.Lower(q)) <==> ProjectMatches(p, q)
    ensures GrantMatches(g, Text.Lower(q)) <==> GrantMatches(g, q)
  {
    Text.LowerIdempotent(q);
  }

  /** A tech-stack entry matches only as the whole lower-cased query: when
      the texts do not contain the query, a published project matches
      exactly when its stack holds the lower-cased query itself, so an entry
      that merely contains it does not count. */
  lemma StackEntryMatchesWhole(p: Project, q: string)
    requires p.status == Published
    requires !Text.ContainsInsensitive(p.title, q)
    requires !Text.ContainsInsensitive(p.tagline, q)
    requires !Text.ContainsInsensitive(p.description, q)
    ensures ProjectMatches(p, q) <==> Text.Lower(q) in p.techStack
  {
  }

  /** When no more than the limit match, every published project the query
      matches is shown, and nothing else. */
  lemma FewMatchesAllShown(projects: seq<Project>, grants: seq<Grant>, q: Option<string>)
    requires !Text.IsBlank(q.GetOr(""))
    requires |MatchingProjects(projects, QueryOf(q))| <= ProjectLimit
    ensures multiset(SearchPage(projects, grants, q).projects) == multiset(MatchingProjects(projects, QueryOf(q)))
    ensures forall p :: p in SearchPage(projects, grants, q).projects <==> p in projects && ProjectMatches(p, QueryOf(q))
  {
    var shown, m := SearchPage(projects, grants, q).projects, MatchingProjects(projects, QueryOf(q));
    assert multiset(shown) == multiset(m);
    forall p
      ensures p in shown <==> p in m
    {
      assert p in shown <==> p in multiset(shown);
      assert p in m <==> p in multiset(m);
    }
  }

  /** The number of results a page shows. */
  function TotalResults(r: Outcome): (n: nat)
    ensures r.EmptyQuery? ==> n == 0
  {
    if r.EmptyQuery? then 0 else |r.projects| + |r.grants|
  }

  /** A results page counts the matching projects up to 20 plus the
      matching grants up to 10, so at most 30 results. */
  lemma TotalResultsCount(projects: seq<Project>, grants: seq<Grant>, q: Option<string>)
    ensures SearchPage(projects, grants, q).Results? ==>
              TotalResults(SearchPage(projects, grants, q))
              == Listing.Min(ProjectLimit, |MatchingProjects(projects, QueryOf(q))|)
                 + Listing.Min(GrantLimit, |MatchingGrants(grants, QueryOf(q))|)
    ensures TotalResults(SearchPage(projects, grants, q)) <= ProjectLimit + GrantLimit
  {
  }
}
