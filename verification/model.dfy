/** The entities of the platform and the store that holds them.

    Rows are immutable records; a table is a map from row id to row; the two
    vote ledgers are sets of (actor, target) facts. Timestamps are integers
    (milliseconds), money amounts are whole integers, and the signed-in
    caller is `Some(userId)` or `None`. */
module Model {
  import opened Wrappers

  type Id = string
  type Time = int

  /** The caller of an action or page: the session's user id, if any. */
  type Session = Option<Id>

  datatype Role = Vibecoder | Sponsor | Admin

  datatype ProjectStatus = Draft | Published | Archived

  datatype GrantStatus = Open | Closed | Paused

  datatype ApplicationStatus = Pending | Reviewing | Approved | Rejected | Withdrawn

  datatype ProjectCategory =
    | Engineering | Llms | Productivity | Marketing | Design
    | Social | Finance | AiAgents | Other

  datatype ThreadCategory = General | VibeChecks | ShowTell | Technical

  /** A user; `role` stays `None` until onboarding picks one. */
  datatype User = User(
    id: Id,
    name: Option<string>,
    username: Option<string>,
    role: Option<Role>,
    bio: Option<string>,
    website: Option<string>,
    twitter: Option<string>)

  /** A showcased project. `upvoteCount` is the denormalised counter kept in
      step with the project vote ledger. */
  datatype Project = Project(
    id: Id,
    userId: Id,
    title: string,
    tagline: string,
    description: string,
    demoUrl: Option<string>,
    repoUrl: Option<string>,
    techStack: seq<string>,
    tags: seq<string>,
    category: ProjectCategory,
    status: ProjectStatus,
    upvoteCount: int,
    createdAt: Time,
    publishedAt: Option<Time>)

  /** A forum thread; `upvoteCount` is kept in step with the thread vote
      ledger, `replyCount` is bumped once per reply. */
  datatype Thread = Thread(
    id: Id,
    userId: Id,
    title: string,
    content: string,
    category: ThreadCategory,
    isPinned: bool,
    upvoteCount: int,
    replyCount: int,
    createdAt: Time)

  datatype Reply = Reply(id: Id, threadId: Id, userId: Id, content: string, parentId: Option<Id>)

  datatype Comment = Comment(id: Id, projectId: Id, userId: Id, text: string, parentId: Option<Id>)

  /** A sponsor's funding offer. */
  datatype Grant = Grant(
    id: Id,
    sponsorId: Id,
    title: string,
    description: string,
    requirements: Option<string>,
    amount: int,
    deadline: Option<Time>,
    maxRecipients: int,
    status: GrantStatus,
    createdAt: Time)

  /** One project's application to one grant. */
  datatype Application = Application(
    id: Id,
    projectId: Id,
    grantId: Id,
    message: Option<string>,
    status: ApplicationStatus,
    createdAt: Time)

  /** "Actor has a live vote on target." */
  datatype Fact = Fact(actor: Id, target: Id)

  /** The whole store. */
  datatype Db = Db(
    users: map<Id, User>,
    projects: map<Id, Project>,
    projectUpvotes: set<Fact>,
    threads: map<Id, Thread>,
    threadUpvotes: set<Fact>,
    replies: map<Id, Reply>,
    comments: map<Id, Comment>,
    grants: map<Id, Grant>,
    applications: map<Id, Application>)

  /** The role stored for `id`, or `None` when there is no such user or the
      user has not onboarded (`user?.role`). */
  function RoleOf(db: Db, id: Id): Option<Role> {
    if id in db.users then db.users[id].role else None
  }

  /** A grant is taking applications at time `now`: OPEN, and its deadline
      (when it has one) not yet passed. The same condition filters the
      active grants, the grants offered on submission and the automatic
      application. */
  predicate AcceptsApplications(g: Grant, now: Time) {
    g.status == Open && (g.deadline.None? || g.deadline.value >= now)
  }

  /** `value || null`: the empty string is stored as null. */
  function EmptyToNone(s: string): (r: Option<string>)
    ensures r.None? <==> s == ""
    ensures r.Some? ==> r.value == s
  {
    if s == "" then None else Some(s)
  }
}
