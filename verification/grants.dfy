/** Sponsor grants and the application lifecycle: `createGrant`,
    `applyToGrant`, `getActiveGrants`, `updateApplicationStatus`, and the
    decisions the sponsor's review buttons offer.

    An application moves between PENDING, REVIEWING, APPROVED and REJECTED.
    It is created PENDING; afterwards the grant's sponsor may set any of
    APPROVED, REJECTED or REVIEWING, from any status. No operation produces
    WITHDRAWN. At most one application exists per (project, grant) pair. */
module Grants {
  import opened Wrappers
  import opened Model
  import Validation
  import Listing

  // ---------------------------------------------------------------------
  // createGrant

  /** The deadline field after `new Date(...)`: left empty, a valid date, or
      text that does not denote a date. */
  datatype RawDate = NoDate | ValidDate(t: Time) | InvalidDate

  /** The grant form as the action reads it. `amount` is the number parsed
      from the amount field (`None` when it is not a number) and
      `maxRecipients` the integer parsed from its field (`None` likewise). */
  datatype GrantForm = GrantForm(
    title: string,
    amount: Option<int>,
    description: string,
    requirements: string,
    deadline: RawDate,
    maxRecipients: Option<int>)

  datatype GrantField = Title | Amount | Description | Deadline | MaxRecipients

  /** A grant form that passed the schema. */
  datatype GrantData = GrantData(
    title: string,
    amount: int,
    description: string,
    requirements: Option<string>,
    deadline: Option<Time>,
    maxRecipients: int)

  /** `parseInt(field) || 1`: an unparsable value, and also zero, become 1;
      any other integer is kept. */
  function MaxRecipientsOf(parsed: Option<int>): (r: int)
    ensures r != 0
    ensures parsed.None? ==> r == 1
    ensures parsed.Some? && parsed.value != 0 ==> r == parsed.value
  {
    if parsed.None? || parsed.value == 0 then 1 else parsed.value
  }

  /** The rule the grant schema states for one field. */
  predicate GrantFieldOk(form: GrantForm, f: GrantField) {
    match f
    case Title => 5 <= |form.title| <= 100
    case Amount => form.amount.Some? && form.amount.value > 0
    case Description => |form.description| >= 50
    case Deadline => !form.deadline.InvalidDate?
    case MaxRecipients => MaxRecipientsOf(form.maxRecipients) > 0
  }


  /** The failing grant fields, each once, in schema order. */
  function GrantIssues(form: GrantForm): (r: seq<GrantField>)
    ensures forall f :: f in r <==> !GrantFieldOk(form, f)
  {
    var ok := f => GrantFieldOk(form, f);
    Validation.Check(ok(Title), Title) + Validation.Check(ok(Amount), Amount) + Validation.Check(ok(Description), Description)
    + Validation.Check(ok(Deadline), Deadline) + Validation.Check(ok(MaxRecipients), MaxRecipients)
  }

  /** `createGrantSchema.safeParse` of the form. Empty requirements become
      absent; a missing or zero recipient count becomes 1. */
  function ValidateGrant(form: GrantForm): (r: Result<GrantData, seq<GrantField>>)
    ensures r.Success? <==>
              && 5 <= |form.title| <= 100
              && form.amount.Some? && form.amount.value > 0
              && |form.description| >= 50
              && form.deadline != InvalidDate
              && (form.maxRecipients.None? || form.maxRecipients.value >= 0)
    ensures r.Success? ==>
              && r.value.title == form.title
              && r.value.amount == form.amount.value
              && r.value.description == form.description
              && (r.value.requirements.None? <==> form.requirements == "")
              && (r.value.requirements.Some? ==> r.value.requirements.value == form.requirements)
              && (form.deadline.ValidDate? <==> r.value.deadline.Some?)
              && (form.deadline.ValidDate? ==> r.value.deadline.value == form.deadline.t)
              && r.value.maxRecipients >= 1
    ensures r.Failure? ==> r.error != [] && forall f :: f in r.error <==> !GrantFieldOk(form, f)
  {
    var issues := GrantIssues(form);
    if issues == [] then
      assert GrantFieldOk(form, Amount) && GrantFieldOk(form, MaxRecipients);
      var deadline := if form.deadline.ValidDate? then Some(form.deadline.t) else None;
      Success(GrantData(form.title, form.amount.value, form.description, EmptyToNone(form.requirements),
                        deadline, MaxRecipientsOf(form.maxRecipients)))
    else
      assert !GrantFieldOk(form, issues[0]);
      Failure(issues)
  }

  datatype CreateGrantError = NotSignedIn | NotSponsor | Invalid(fields: seq<GrantField>) | StoreFailure

  /** Only sponsors and admins may create grants (`user?.role`). */
  predicate MayCreateGrants(role: Option<Role>) {
    role == Some(Sponsor) || role == Some(Admin)
  }

  /** What the stored grant keeps of the form: the texts and amount as
      typed, empty requirements as absent, the deadline when one was given,
      the recipient count after `|| 1`, OPEN, owned by the caller, created
      now. */
  predicate FromForm(g: Grant, id: Id, sponsor: Id, form: GrantForm, now: Time) {
    && g.id == id && g.sponsorId == sponsor && g.status == Open && g.createdAt == now
    && g.title == form.title && g.description == form.description
    && form.amount.Some? && g.amount == form.amount.value && g.amount > 0
    && (g.requirements.None? <==> form.requirements == "")
    && (g.requirements.Some? ==> g.requirements.value == form.requirements)
    && (g.deadline.Some? <==> form.deadline.ValidDate?)
    && (form.deadline.ValidDate? ==> g.deadline.value == form.deadline.t)
    && g.maxRecipients == MaxRecipientsOf(form.maxRecipients) && g.maxRecipients >= 1
  }

  /** `createGrant`: role gate, then the schema, then an OPEN grant owned by
      the caller. `newId` is the id the store assigns; if it is taken the
      insert fails. */
  function CreateGrant(db: Db, session: Session, form: GrantForm, now: Time, newId: Id): (out: (Db, Result<Id, CreateGrantError>))
    ensures session.None? ==> out == (db, Failure(CreateGrantError.NotSignedIn))
    ensures session.Some? && !MayCreateGrants(RoleOf(db, session.value)) ==> out == (db, Failure(NotSponsor))
    ensures session.Some? && MayCreateGrants(RoleOf(db, session.value)) && ValidateGrant(form).Failure? ==>
              out == (db, Failure(Invalid(ValidateGrant(form).error)))
    ensures out.1.Failure? ==> out.0 == db
    ensures out.1.Success? <==>
              && session.Some? && MayCreateGrants(RoleOf(db, session.value))
              && ValidateGrant(form).Success? && newId !in db.grants
    ensures out.1.Success? ==>
              && out.1.value == newId
              && out.0 == db.(grants := out.0.grants)
              && out.0.grants.Keys == db.grants.Keys + {newId}
              && (forall g :: g in db.grants ==> out.0.grants[g] == db.grants[g])
              && FromForm(out.0.grants[newId], newId, session.value, form, now)
  {
    if session.None? then (db, Failure(CreateGrantError.NotSignedIn))
    else if !MayCreateGrants(RoleOf(db, session.value)) then (db, Failure(NotSponsor))
    else match ValidateGrant(form)
      case Failure(fields) => (db, Failure(Invalid(fields)))
      case Success(data) =>
        if newId in db.grants then (db, Failure(CreateGrantError.StoreFailure))
        else
          var g := Grant(newId, session.value, data.title, data.description, data.requirements, data.amount,
                         data.deadline, data.maxRecipients, Open, now);
          (db.(grants := db.grants[newId := g]), Success(newId))
  }

  /** A grant just created shows among the active grants, looked up at any
      time `t` among rows that include it, exactly while its deadline (if
      any) has not passed. */
  lemma CreatedGrantListed(db: Db, session: Session, form: GrantForm, now: Time, newId: Id,
                                              rows: seq<Grant>, t: Time)
    requires CreateGrant(db, session, form, now, newId).1.Success?
    requires CreateGrant(db, session, form, now, newId).0.grants[newId] in rows
    ensures CreateGrant(db, session, form, now, newId).0.grants[newId] in GetActiveGrants(rows, t) <==>
              form.deadline.NoDate? || (form.deadline.ValidDate? && form.deadline.t >= t)
  {
  }

  // ---------------------------------------------------------------------
  // applyToGrant

  /** `projectId` names a project owned by `user`. */
  predicate Owns(db: Db, user: Id, projectId: Id) {
    projectId in db.projects && db.projects[projectId].userId == user
  }

  /** Some application already pairs this project with this grant. */
  predicate HasApplication(db: Db, projectId: Id, grantId: Id) {
    exists a :: a in db.applications && db.applications[a].projectId == projectId && db.applications[a].grantId == grantId
  }

  /** The store's unique (project, grant) constraint on applications. */
  ghost predicate UniqueApplications(db: Db) {
    forall a, b ::
      a in db.applications && b in db.applications
      && db.applications[a].projectId == db.applications[b].projectId
      && db.applications[a].grantId == db.applications[b].grantId
      ==> a == b
  }

  datatype ApplyError = NotSignedIn | ProjectNotOwned | GrantNotOpen | DeadlinePassed | AlreadyApplied | StoreFailure

  function ApplyMessage(e: Option<ApplyError>): string {
    match e
    case None => "Application submitted successfully!"
    case Some(NotSignedIn) => "You must be signed in"
    case Some(ProjectNotOwned) => "Project not found or you don't have permission"
    case Some(GrantNotOpen) => "Grant is not accepting applications"
    case Some(DeadlinePassed) => "Grant deadline has passed"
    case Some(AlreadyApplied) => "You have already applied to this grant with this project"
    case Some(StoreFailure) => "Something went wrong. Please try again."
  }

  /** The application row a successful apply stores. */
  function NewApplication(id: Id, projectId: Id, grantId: Id, message: Option<string>, now: Time): (a: Application)
    ensures a.id == id && a.createdAt == now
    ensures a.status == Pending && a.projectId == projectId && a.grantId == grantId
    ensures a.message.None? <==> message.None? || message.value == ""
    ensures message.Some? && message.value != "" ==> a.message == message
  {
    Application(id, projectId, grantId, if message.None? then None else EmptyToNone(message.value), Pending, now)
  }

  /** `applyToGrant`: the checks run in order and the first that fails
      decides the answer; nothing is written unless all pass. */
  function ApplyToGrant(db: Db, session: Session, projectId: Id, grantId: Id, message: Option<string>, now: Time, newId: Id)
    : (out: (Db, Result<(), ApplyError>))
    ensures out.1.Failure? ==> out.0 == db
    ensures session.None? ==> out.1 == Failure(ApplyError.NotSignedIn)
    ensures session.Some? && !Owns(db, session.value, projectId) ==> out.1 == Failure(ProjectNotOwned)
    ensures session.Some? && Owns(db, session.value, projectId)
            && (grantId !in db.grants || db.grants[grantId].status != Open)
            ==> out.1 == Failure(GrantNotOpen)
    ensures session.Some? && Owns(db, session.value, projectId)
            && grantId in db.grants && db.grants[grantId].status == Open
            && db.grants[grantId].deadline.Some? && db.grants[grantId].deadline.value < now
            ==> out.1 == Failure(DeadlinePassed)
    ensures session.Some? && Owns(db, session.value, projectId)
            && grantId in db.grants && AcceptsApplications(db.grants[grantId], now)
            && HasApplication(db, projectId, grantId)
            ==> out.1 == Failure(AlreadyApplied)
    ensures out.1.Success? ==>
              && newId !in db.applications
              && out.0 == db.(applications := db.applications[newId := NewApplication(newId, projectId, grantId, message, now)])
  {
    if session.None? then (db, Failure(ApplyError.NotSignedIn))
    else if !Owns(db, session.value, projectId) then (db, Failure(ProjectNotOwned))
    else if grantId !in db.grants || db.grants[grantId].status != Open then (db, Failure(GrantNotOpen))
    else if db.grants[grantId].deadline.Some? && db.grants[grantId].deadline.value < now then (db, Failure(DeadlinePassed))
    else if HasApplication(db, projectId, grantId) then (db, Failure(AlreadyApplied))
    else if newId in db.applications then (db, Failure(ApplyError.StoreFailure))
    else
      (db.(applications := db.applications[newId := NewApplication(newId, projectId, grantId, message, now)]), Success(()))
  }

  /** An apply goes through exactly when the caller owns the project, the
      grant takes applications now, the pair has no application yet, and
      the new id is free. */
  lemma ApplySucceedsIff(db: Db, session: Session, projectId: Id, grantId: Id, message: Option<string>, now: Time, newId: Id)
    ensures ApplyToGrant(db, session, projectId, grantId, message, now, newId).1.Success? <==>
              && session.Some?
              && Owns(db, session.value, projectId)
              && grantId in db.grants && AcceptsApplications(db.grants[grantId], now)
              && !HasApplication(db, projectId, grantId)
              && newId !in db.applications
  {
  }

  /** Applying keeps (project, grant) pairs unique, and a second apply of the
      same pair is refused whatever the ids. */
  lemma ApplyKeepsUnique(db: Db, session: Session, projectId: Id, grantId: Id, message: Option<string>, now: Time, newId: Id)
    requires UniqueApplications(db)
    ensures var (db', r) := ApplyToGrant(db, session, projectId, grantId, message, now, newId);
            && UniqueApplications(db')
            && (r.Success? ==> HasApplication(db', projectId, grantId))
  {
    var (db', r) := ApplyToGrant(db, session, projectId, grantId, message, now, newId);
    if r.Success? {
      var apps := db'.applications;
      assert apps[newId].projectId == projectId && apps[newId].grantId == grantId;
      assert !HasApplication(db, projectId, grantId);
    }
  }

  // ---------------------------------------------------------------------
  // getActiveGrants

  function GrantCreatedAt(g: Grant): int {
    g.createdAt
  }

  /** `orderBy: { createdAt: "desc" }`. */
  function NewestFirst(): (Grant, Grant) -> bool {
    Listing.Desc([GrantCreatedAt])
  }

  /** `getActiveGrants` over the grant rows: exactly the grants taking
      applications at `now`, newest first. */
  function GetActiveGrants(grants: seq<Grant>, now: Time): (r: seq<Grant>)
    ensures forall g :: g in r <==> g in grants && AcceptsApplications(g, now)
    ensures multiset(r) <= multiset(grants)
    ensures Listing.Sorted(r, NewestFirst())
    ensures forall i, j :: 0 <= i < j < |r| ==> r[i].createdAt >= r[j].createdAt
  {
    var p := g => AcceptsApplications(g, now);
    var active := Listing.Filter(grants, p);
    var r := Listing.SortBy(active, NewestFirst());
    Listing.DescIsTotalPreorder([GrantCreatedAt]);
    Listing.SortedDescLeadingKey(r, [GrantCreatedAt]);
    forall g
      ensures g in r <==> g in grants && AcceptsApplications(g, now)
    {
      Listing.FilterMembership(grants, p, g);
      assert g in r <==> g in multiset(active);
    }
    forall g
      ensures multiset(active)[g] <= multiset(grants)[g]
    {
      Listing.FilterCounts(grants, p, g);
    }
    r
  }

  // ---------------------------------------------------------------------
  // updateApplicationStatus

  /** The statuses a sponsor may set. */
  datatype Decision = Approve | Reject | Review

  function StatusOf(d: Decision): (s: ApplicationStatus)
    ensures s != Pending && s != Withdrawn
  {
    match d
    case Approve => Approved
    case Reject => Rejected
    case Review => Reviewing
  }

  datatype UpdateError = NotSignedIn | NotGrantSponsor | ApplicationNotFound

  function DecisionMessage(d: Decision): string {
    match d
    case Approve => "Application approved successfully!"
    case Reject => "Application rejected."
    case Review => "Application marked as under review."
  }

  /** `grantId` names a grant sponsored by `user`. */
  predicate Sponsors(db: Db, user: Id, grantId: Id) {
    grantId in db.grants && db.grants[grantId].sponsorId == user
  }

  /** `applicationId` names an application to `grantId`. */
  predicate ApplicationOf(db: Db, applicationId: Id, grantId: Id) {
    applicationId in db.applications && db.applications[applicationId].grantId == grantId
  }

  /** `updateApplicationStatus`: the caller must sponsor the grant, then the
      application must belong to it; then only its status changes, whatever
      it was. */
  function UpdateApplicationStatus(db: Db, session: Session, applicationId: Id, grantId: Id, d: Decision)
    : (out: (Db, Result<string, UpdateError>))
    ensures out.1.Failure? ==> out.0 == db
    ensures session.None? ==> out.1 == Failure(UpdateError.NotSignedIn)
    ensures session.Some? && !Sponsors(db, session.value, grantId) ==> out.1 == Failure(NotGrantSponsor)
    ensures session.Some? && Sponsors(db, session.value, grantId) && !ApplicationOf(db, applicationId, grantId)
            ==> out.1 == Failure(ApplicationNotFound)
    ensures session.Some? && Sponsors(db, session.value, grantId) && ApplicationOf(db, applicationId, grantId)
            ==> out.1 == Success(DecisionMessage(d))
    ensures out.1.Success? ==>
              && out.0 == db.(applications := out.0.applications)
              && out.0.applications.Keys == db.applications.Keys
              && (forall a :: a in db.applications && a != applicationId ==> out.0.applications[a] == db.applications[a])
              && out.0.applications[applicationId].status == StatusOf(d)
              && out.0.applications[applicationId].(status := db.applications[applicationId].status)
                 == db.applications[applicationId]
  {
    if session.None? then (db, Failure(UpdateError.NotSignedIn))
    else if !Sponsors(db, session.value, grantId) then (db, Failure(NotGrantSponsor))
    else if !ApplicationOf(db, applicationId, grantId) then (db, Failure(ApplicationNotFound))
    else
      var a := db.applications[applicationId];
      (db.(applications := db.applications[applicationId := a.(status := StatusOf(d))]), Success(DecisionMessage(d)))
  }

  /** Status updates keep (project, grant) pairs unique and never produce
      WITHDRAWN. */
  lemma UpdateKeepsUnique(db: Db, session: Session, applicationId: Id, grantId: Id, d: Decision)
    requires UniqueApplications(db)
    ensures var db' := UpdateApplicationStatus(db, session, applicationId, grantId, d).0;
            && UniqueApplications(db')
            && (forall a :: a in db'.applications && db'.applications[a].status == Withdrawn
                  ==> a in db.applications && db.applications[a].status == Withdrawn)
  {
    var db' := UpdateApplicationStatus(db, session, applicationId, grantId, d).0;
    if db' != db {
      forall a | a in db'.applications
        ensures db'.applications[a].projectId == db.applications[a].projectId
        ensures db'.applications[a].grantId == db.applications[a].grantId
      {
      }
    }
  }

  /** A decision can be reversed: an approved application can be rejected
      and a rejected one approved, by the same sponsor. */
  lemma ApproveThenReject(db: Db, sponsor: Id, applicationId: Id, grantId: Id)
    requires Sponsors(db, sponsor, grantId) && ApplicationOf(db, applicationId, grantId)
    ensures var (db1, r1) := UpdateApplicationStatus(db, Some(sponsor), applicationId, grantId, Approve);
            var (db2, r2) := UpdateApplicationStatus(db1, Some(sponsor), applicationId, grantId, Reject);
            var (db3, r3) := UpdateApplicationStatus(db2, Some(sponsor), applicationId, grantId, Approve);
            && r1.Success? && r2.Success? && r3.Success?
            && db1.applications[applicationId].status == Approved
            && db2.applications[applicationId].status == Rejected
            && db3 == db1
  {
    var (db1, r1) := UpdateApplicationStatus(db, Some(sponsor), applicationId, grantId, Approve);
    var (db2, r2) := UpdateApplicationStatus(db1, Some(sponsor), applicationId, grantId, Reject);
    assert Sponsors(db1, sponsor, grantId) && ApplicationOf(db1, applicationId, grantId);
    assert Sponsors(db2, sponsor, grantId) && ApplicationOf(db2, applicationId, grantId);
  }

  // ---------------------------------------------------------------------
  // The sponsor's review buttons

  /** One button: the decision it requests and its caption. */
  datatype Offer = Offer(decision: Decision, caption: string)

  /** The buttons shown for an application in `status`. An approval can be
      revoked, a rejection reversed; otherwise both are offered. The
      under-review decision is never offered. */
  function OfferedDecisions(status: ApplicationStatus): (r: seq<Offer>)
    ensures status == Approved ==> r == [Offer(Reject, "Revoke Approval")]
    ensures status == Rejected ==> r == [Offer(Approve, "Approve Instead")]
    ensures status != Approved && status != Rejected ==> r == [Offer(Approve, "Approve"), Offer(Reject, "Reject")]
    ensures forall i :: 0 <= i < |r| ==> r[i].decision != Review && StatusOf(r[i].decision) != status
  {
    match status
    case Approved => [Offer(Reject, "Revoke Approval")]
    case Rejected => [Offer(Approve, "Approve Instead")]
    case _ => [Offer(Approve, "Approve"), Offer(Reject, "Reject")]
  }

  /** The buttons' shared state: whether a request is in flight, and which
      decision it carries (`actionType`). */
  datatype ButtonsState = ButtonsState(pending: bool, actionType: Option<Decision>)

  /** A click records the decision and starts the request. */
  function StartDecision(s: ButtonsState, d: Decision): (r: ButtonsState)
    ensures r.pending && r.actionType == Some(d)
  {
    ButtonsState(true, Some(d))
  }

  /** When the request ends, successfully or not, the recorded decision is
      cleared. */
  function FinishDecision(s: ButtonsState, succeeded: bool): (r: ButtonsState)
    ensures !r.pending && r.actionType.None?
  {
    ButtonsState(false, None)
  }

  /** The spinner replaces a button's icon exactly while that button's own
      decision is in flight. */
  predicate ShowsSpinner(s: ButtonsState, d: Decision) {
    s.pending && s.actionType == Some(d)
  }

  /** During a request only the clicked button spins; afterwards none does. */
  lemma SpinnerFollowsClick(s: ButtonsState, clicked: Decision, other: Decision, succeeded: bool)
    ensures ShowsSpinner(StartDecision(s, clicked), other) <==> other == clicked
    ensures !ShowsSpinner(FinishDecision(StartDecision(s, clicked), succeeded), other)
  {
  }

  /** Every button the review UI shows leads to a successful update for the
      grant's sponsor, and changes the status. */
  lemma OffersAreAccepted(db: Db, sponsor: Id, applicationId: Id, grantId: Id, i: nat)
    requires Sponsors(db, sponsor, grantId) && ApplicationOf(db, applicationId, grantId)
    requires i < |OfferedDecisions(db.applications[applicationId].status)|
    ensures var o := OfferedDecisions(db.applications[applicationId].status)[i];
            var (db', r) := UpdateApplicationStatus(db, Some(sponsor), applicationId, grantId, o.decision);
            && r.Success?
            && db'.applications[applicationId].status != db.applications[applicationId].status
  {
  }
}
