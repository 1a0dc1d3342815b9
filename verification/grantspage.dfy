/** The public grants page: every OPEN grant (deadline or not), largest
    amount first and newest first among equal amounts, with four summary
    figures and calls to action that depend on the visitor's role. */
module GrantsPage {
  import opened Wrappers
  import opened Model
  import Listing

  /** A listed grant with its number of applications. */
  datatype GrantRow = GrantRow(grant: Grant, applications: nat)

  /** Sponsors and admins count as sponsors here. */
  predicate IsSponsor(db: Db, session: Session) {
    session.Some? && (RoleOf(db, session.value) == Some(Sponsor) || RoleOf(db, session.value) == Some(Admin))
  }

  predicate IsOpenRow(r: GrantRow) {
    r.grant.status == Open
  }

  function AmountKey(r: GrantRow): int {
    r.grant.amount
  }

  function CreatedKey(r: GrantRow): int {
    r.grant.createdAt
  }

  /** `orderBy: [{amount: "desc"}, {createdAt: "desc"}]`. */
  function ByAmountThenNewest(): (GrantRow, GrantRow) -> bool {
    Listing.Desc([AmountKey, CreatedKey])
  }

  /** The listed grants: the OPEN ones, in the page's order. */
  function Listed(rows: seq<GrantRow>): (r: seq<GrantRow>)
    ensures multiset(r) == multiset(Listing.Filter(rows, IsOpenRow))
    ensures forall x :: x in r <==> x in rows && x.grant.status == Open
    ensures forall i, j :: 0 <= i < j < |r| ==>
              r[i].grant.amount > r[j].grant.amount
              || (r[i].grant.amount == r[j].grant.amount && r[i].grant.createdAt >= r[j].grant.createdAt)
  {
    var r := Listing.SortBy(Listing.Filter(rows, IsOpenRow), ByAmountThenNewest());
    ListedFacts(rows, r);
    r
  }

  lemma ListedFacts(rows: seq<GrantRow>, r: seq<GrantRow>)
    requires r == Listing.SortBy(Listing.Filter(rows, IsOpenRow), ByAmountThenNewest())
    ensures forall x :: x in r <==> x in rows && x.grant.status == Open
    ensures forall i, j :: 0 <= i < j < |r| ==>
              r[i].grant.amount > r[j].grant.amount
              || (r[i].grant.amount == r[j].grant.amount && r[i].grant.createdAt >= r[j].grant.createdAt)
  {
    ListedMembers(rows, r);
    Listing.DescIsTotalPreorder([AmountKey, CreatedKey]);
    Listing.SortedDescTwoKeys(r, AmountKey, CreatedKey);
  }

  lemma ListedMembers(rows: seq<GrantRow>, r: seq<GrantRow>)
    requires multiset(r) == multiset(Listing.Filter(rows, IsOpenRow))
    ensures forall x :: x in r <==> x in rows && x.grant.status == Open
  {
    forall x
      ensures x in r <==> x in rows && x.grant.status == Open
    {
      Listing.FilterMembership(rows, IsOpenRow, x);
      assert x in r <==> x in multiset(r);
      assert x in Listing.Filter(rows, IsOpenRow) <==> x in multiset(Listing.Filter(rows, IsOpenRow));
    }
  }

  /** Unlike the active-grants query, the page does not look at deadlines:
      an OPEN grant whose deadline has passed is still listed. */
  lemma ListsExpiredGrants(rows: seq<GrantRow>, x: GrantRow, now: Time)
    requires x in rows && x.grant.status == Open && x.grant.deadline == Some(now - 1)
    ensures x in Listed(rows) && !AcceptsApplications(x.grant, now)
  {
  }

  function Applications(r: GrantRow): int {
    r.applications
  }

  /** The distinct sponsors of a list of grants. */
  function Sponsors(l: seq<GrantRow>): (r: set<Id>)
    ensures forall s :: s in r <==> exists x :: x in l && x.grant.sponsorId == s
    ensures |r| <= |l|
    ensures |l| > 0 ==> |r| > 0
  {
    if |l| == 0 then {}
    else
      var rest := Sponsors(l[1..]);
      assert forall x :: x in l ==> x == l[0] || x in l[1..];
      assert l[0].grant.sponsorId in rest + {l[0].grant.sponsorId};
      rest + {l[0].grant.sponsorId}
  }

  /** The stats row. */
  datatype Figures = Figures(funding: int, grants: int, applications: int, sponsors: int)

  function FiguresOf(l: seq<GrantRow>): Figures {
    Figures(Listing.Sum(l, AmountKey), |l|, Listing.Sum(l, Applications), |Sponsors(l)|)
  }

  function OpenAmount(r: GrantRow): int {
    if r.grant.status == Open then r.grant.amount else 0
  }

  function OpenApplications(r: GrantRow): int {
    if r.grant.status == Open then r.applications else 0
  }

  /** The figures do not depend on the listing order: funding and
      applications are sums over the OPEN grants in store order, the grant
      count is their number, and there are never more sponsors than
      grants. */
  lemma FiguresOfListed(rows: seq<GrantRow>)
    ensures FiguresOf(Listed(rows)).funding == Listing.Sum(rows, OpenAmount)
    ensures FiguresOf(Listed(rows)).applications == Listing.Sum(rows, OpenApplications)
    ensures FiguresOf(Listed(rows)).grants == Listing.Count(rows, IsOpenRow)
    ensures FiguresOf(Listed(rows)).sponsors <= FiguresOf(Listed(rows)).grants
    ensures FiguresOf(Listed(rows)).applications >= 0
  {
    var open := Listing.Filter(rows, IsOpenRow);
    Listing.SumOfPermutation(Listed(rows), open, AmountKey);
    Listing.SumOfFilter(rows, IsOpenRow, AmountKey, OpenAmount);
    Listing.SumOfPermutation(Listed(rows), open, Applications);
    Listing.SumOfFilter(rows, IsOpenRow, Applications, OpenApplications);
    Listing.SumNonNegative(Listed(rows), Applications);
  }

  /** The two calls to action. */
  datatype Ctas = Ctas(createGrant: bool, becomeSponsor: bool)

  function CtasFor(db: Db, session: Session): (r: Ctas)
    ensures r.createGrant <==> IsSponsor(db, session)
    ensures r.becomeSponsor <==> session.Some? && !IsSponsor(db, session)
    ensures !(r.createGrant && r.becomeSponsor)
    ensures session.None? ==> r == Ctas(false, false)
  {
    Ctas(IsSponsor(db, session), !IsSponsor(db, session) && session.Some?)
  }
}
