/** The submission page: who may see the form, and which grants it offers
    for the automatic application. */
module SubmitPage {
  import opened Wrappers
  import opened Model
  import Listing
  import Grants

  /** Where the page sends a visitor. */
  datatype Guard = ToSignIn(url: string) | ToOnboarding | ShowForm

  /** Signed out: sign in first (before any role lookup). No role yet, or
      no user row: onboarding. Otherwise the form. */
  function GuardFor(db: Db, session: Session): (r: Guard)
    ensures session.None? <==> r == ToSignIn("/sign-in?callbackUrl=/submit")
    ensures r == ToOnboarding <==> session.Some? && RoleOf(db, session.value).None?
    ensures r == ShowForm <==> session.Some? && RoleOf(db, session.value).Some?
  {
    if session.None? then ToSignIn("/sign-in?callbackUrl=/submit")
    else if RoleOf(db, session.value).None? then ToOnboarding
    else ShowForm
  }

  function AmountKey(g: Grant): int {
    g.amount
  }

  predicate IsOpen(g: Grant) {
    g.status == Open
  }

  /** The OPEN grants, largest amount first, as the query returns them. */
  function Fetched(grants: seq<Grant>): (r: seq<Grant>)
    ensures multiset(r) == multiset(Listing.Filter(grants, IsOpen))
    ensures Listing.Sorted(r, Listing.Desc([AmountKey]))
  {
    Listing.DescIsTotalPreorder([AmountKey]);
    Listing.SortBy(Listing.Filter(grants, IsOpen), Listing.Desc([AmountKey]))
  }

  /** The grants offered in the form: the fetched ones whose deadline is
      absent or not yet passed, still largest first. */
  function Offered(grants: seq<Grant>, now: Time): (r: seq<Grant>)
    ensures forall g :: g in r <==> g in grants && AcceptsApplications(g, now)
    ensures forall i, j :: 0 <= i < j < |r| ==> r[i].amount >= r[j].amount
  {
    var fetched := Fetched(grants);
    var notExpired := (g: Grant) => NotExpired(g, now);
    var r := Listing.Filter(fetched, notExpired);
    OfferedFacts(grants, now, fetched, notExpired, r);
    r
  }

  /** No deadline, or a deadline not before `now`. */
  predicate NotExpired(g: Grant, now: Time) {
    g.deadline.None? || g.deadline.value >= now
  }

  lemma OfferedFacts(grants: seq<Grant>, now: Time, fetched: seq<Grant>, notExpired: Grant -> bool, r: seq<Grant>)
    requires fetched == Fetched(grants)
    requires forall g :: notExpired(g) == NotExpired(g, now)
    requires r == Listing.Filter(fetched, notExpired)
    ensures forall g :: g in r <==> g in grants && AcceptsApplications(g, now)
    ensures forall i, j :: 0 <= i < j < |r| ==> r[i].amount >= r[j].amount
  {
    forall g
      ensures g in r <==> g in grants && AcceptsApplications(g, now)
    {
      Listing.FilterMembership(fetched, notExpired, g);
      Listing.FilterMembership(grants, IsOpen, g);
      assert g in fetched <==> g in multiset(fetched);
      assert g in Listing.Filter(grants, IsOpen) <==> g in multiset(Listing.Filter(grants, IsOpen));
    }
    Listing.FilterKeepsSorted(fetched, notExpired, Listing.Desc([AmountKey]));
    Listing.SortedDescLeadingKey(r, [AmountKey]);
  }

  /** The form offers exactly the grants the active-grants query returns;
      only the order differs. */
  lemma OffersTheActiveGrants(grants: seq<Grant>, now: Time, g: Grant)
    ensures g in Offered(grants, now) <==> g in Grants.GetActiveGrants(grants, now)
  {
  }

  /** The tip about grants shows exactly when some grant is offered. */
  predicate ShowsGrantTip(grants: seq<Grant>, now: Time) {
    |Offered(grants, now)| > 0
  }

  lemma GrantTipIff(grants: seq<Grant>, now: Time)
    ensures ShowsGrantTip(grants, now) <==> exists g :: g in grants && AcceptsApplications(g, now)
  {
    var r := Offered(grants, now);
    if |r| > 0 {
      assert r[0] in r;
    }
  }
}
