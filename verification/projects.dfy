/** Project submission (`createProject`): validate the form, store the
    project as PUBLISHED, and, when a grant was chosen and still takes
    applications, file a PENDING application to it. */
module Projects {
  import opened Wrappers
  import opened Model
  import Listing
  import Validation
  import Votes
  import Grants

  /** The submission form: the schema's fields plus the chosen grant id
      (empty when none). */
  datatype ProjectForm = ProjectForm(
    title: string,
    tagline: string,
    description: string,
    demoUrl: string,
    repoUrl: string,
    techStack: seq<string>,
    category: string,
    grantId: string)

  datatype CreateError = NotSignedIn | Invalid(fields: seq<Validation.ProjectField>) | StoreFailure

  /** What a successful submission returns. */
  datatype Created = Created(projectId: Id, message: string)

  const WithGrantMessage := "Project submitted and grant application created!"
  const PlainMessage := "Project submitted successfully!"

  /** The form value the schema sees: an empty category becomes "OTHER". */
  function SchemaInput(form: ProjectForm): (input: Validation.ProjectInput)
    ensures input.category == if form.category == "" then "OTHER" else form.category
  {
    Validation.ProjectInput(form.title, form.tagline, form.description, form.demoUrl, form.repoUrl,
                            form.techStack, if form.category == "" then "OTHER" else form.category)
  }

  /** The chosen grant exists and takes applications at `now`. */
  predicate AutoApplies(db: Db, grantId: string, now: Time) {
    grantId != "" && grantId in db.grants && AcceptsApplications(db.grants[grantId], now)
  }

  /** The row a valid submission stores. */
  function NewProject(id: Id, user: Id, data: Validation.ProjectData, now: Time): Project {
    Project(id, user, data.title, data.tagline, data.description,
            EmptyToNone(data.demoUrl), EmptyToNone(data.repoUrl),
            data.techStack, Listing.Take(data.techStack, 5), data.category,
            Published, 0, now, Some(now))
  }

  /** What the stored row keeps of the form: the given id, published now
      by the submitter with no upvotes, the texts as typed, the stack as
      given and its first five entries as tags, empty URLs as absent and the
      others as typed, and the chosen category ("OTHER" when none was
      chosen). */
  predicate StoredFrom(p: Project, id: Id, user: Id, form: ProjectForm, now: Time) {
    && p.id == id
    && p.status == Published && p.publishedAt == Some(now) && p.createdAt == now
    && p.userId == user && p.upvoteCount == 0
    && p.title == form.title && p.tagline == form.tagline && p.description == form.description
    && (form.demoUrl != "" ==> p.demoUrl == Some(form.demoUrl))
    && (form.repoUrl != "" ==> p.repoUrl == Some(form.repoUrl))
    && p.techStack == form.techStack
    && |p.tags| == Listing.Min(5, |form.techStack|) && p.tags <= form.techStack
    && (p.demoUrl.None? <==> form.demoUrl == "")
    && (p.repoUrl.None? <==> form.repoUrl == "")
    && (form.category == "" ==> p.category == Other)
    && (form.category != "" ==> Validation.CategoryValue(p.category) == form.category)
  }

  /** The row built from a form the schema accepted keeps the form. */
  lemma NewProjectFromForm(id: Id, user: Id, form: ProjectForm, isUrl: string -> bool, now: Time)
    requires Validation.ValidateProject(SchemaInput(form), isUrl).Success?
    ensures StoredFrom(NewProject(id, user, Validation.ValidateProject(SchemaInput(form), isUrl).value, now),
                       id, user, form, now)
  {
  }

  /** `createProject`. `projectId` and `applicationId` are the ids the store
      assigns. The project insert and the application insert are separate
      writes: if the second fails, the project stays and the caller is told
      something went wrong. */
  function CreateProject(db: Db, session: Session, form: ProjectForm, isUrl: string -> bool, now: Time,
                         projectId: Id, applicationId: Id): (out: (Db, Result<Created, CreateError>))
    ensures session.None? ==> out == (db, Failure(CreateError.NotSignedIn))
    ensures session.Some? && Validation.ValidateProject(SchemaInput(form), isUrl).Failure? ==>
              out == (db, Failure(Invalid(Validation.ValidateProject(SchemaInput(form), isUrl).error)))
    ensures out.1.Success? ==>
              && session.Some?
              && Validation.ValidateProject(SchemaInput(form), isUrl).Success?
              && out.1.value.projectId == projectId
              && (out.1.value.message == WithGrantMessage <==> form.grantId != "")
              && (out.1.value.message == PlainMessage <==> form.grantId == "")
              && projectId !in db.projects
              && out.0.projects.Keys == db.projects.Keys + {projectId}
              && (forall p :: p in db.projects ==> out.0.projects[p] == db.projects[p])
              && out.0.(projects := db.projects, applications := db.applications) == db
              && StoredFrom(out.0.projects[projectId], projectId, session.value, form, now)
    ensures out.1.Success? <==>
              && session.Some? && Validation.ValidateProject(SchemaInput(form), isUrl).Success?
              && projectId !in db.projects
              && (AutoApplies(db, form.grantId, now) ==>
                    applicationId !in db.applications && !Grants.HasApplication(db, projectId, form.grantId))
    ensures out.1.Failure? && out.0 != db ==>
              && out.1 == Failure(CreateError.StoreFailure)
              && AutoApplies(db, form.grantId, now)
              && projectId !in db.projects
              && out.0.applications == db.applications
              && out.0.projects.Keys == db.projects.Keys + {projectId}
              && StoredFrom(out.0.projects[projectId], projectId, session.value, form, now)
    ensures out.1.Success? && !AutoApplies(db, form.grantId, now) ==> out.0.applications == db.applications
    ensures out.1.Success? && AutoApplies(db, form.grantId, now) ==>
              && applicationId !in db.applications
              && out.0.applications.Keys == db.applications.Keys + {applicationId}
              && (forall a :: a in db.applications ==> out.0.applications[a] == db.applications[a])
              && var a := out.0.applications[applicationId];
                 a.projectId == projectId && a.grantId == form.grantId && a.status == Pending && a.message.None?
  {
    if session.None? then (db, Failure(CreateError.NotSignedIn))
    else match Validation.ValidateProject(SchemaInput(form), isUrl)
      case Failure(fields) => (db, Failure(Invalid(fields)))
      case Success(data) =>
        if projectId in db.projects then (db, Failure(CreateError.StoreFailure))
        else
          NewProjectFromForm(projectId, session.value, form, isUrl, now);
          var db1 := db.(projects := db.projects[projectId := NewProject(projectId, session.value, data, now)]);
          var message := if form.grantId != "" then WithGrantMessage else PlainMessage;
          if !AutoApplies(db, form.grantId, now) then (db1, Success(Created(projectId, message)))
          else if applicationId in db1.applications || Grants.HasApplication(db1, projectId, form.grantId) then
            (db1, Failure(CreateError.StoreFailure))
          else
            var app := Application(applicationId, projectId, form.grantId, None, Pending, now);
            (db1.(applications := db1.applications[applicationId := app]), Success(Created(projectId, message)))
  }

  /** A new project starts with no votes, so the project vote ledger stays
      reconciled. */
  lemma CreateProjectKeepsReconciled(db: Db, session: Session, form: ProjectForm, isUrl: string -> bool, now: Time,
                                     projectId: Id, applicationId: Id)
    requires Votes.Reconciled(db, Votes.OnProject)
    ensures Votes.Reconciled(CreateProject(db, session, form, isUrl, now, projectId, applicationId).0, Votes.OnProject)
  {
    var db' := CreateProject(db, session, form, isUrl, now, projectId, applicationId).0;
    if db' != db {
      var facts := Votes.Facts(db, Votes.OnProject);
      assert Votes.Facts(db', Votes.OnProject) == facts;
      assert projectId !in db.projects;
      assert Votes.OnTarget(facts, projectId) == {} by {
        forall f | f in facts
          ensures f.target != projectId
        {
          assert Votes.Counter(db, Votes.OnProject, f.target).Some?;
        }
      }
      forall t | Votes.Counter(db', Votes.OnProject, t).Some?
        ensures Votes.Counter(db', Votes.OnProject, t).value == Votes.Tally(facts, t)
      {
        if t != projectId {
          assert Votes.Counter(db', Votes.OnProject, t) == Votes.Counter(db, Votes.OnProject, t);
        }
      }
    }
  }

  /** Submission keeps (project, grant) application pairs unique. */
  lemma CreateProjectKeepsUnique(db: Db, session: Session, form: ProjectForm, isUrl: string -> bool, now: Time,
                                 projectId: Id, applicationId: Id)
    requires Grants.UniqueApplications(db)
    ensures Grants.UniqueApplications(CreateProject(db, session, form, isUrl, now, projectId, applicationId).0)
  {
    var (db', r) := CreateProject(db, session, form, isUrl, now, projectId, applicationId);
    if db'.applications != db.applications {
      var db1 := db.(projects := db'.projects);
      assert !Grants.HasApplication(db1, projectId, form.grantId);
      assert db'.applications == db.applications[applicationId := db'.applications[applicationId]];
    }
  }
}
