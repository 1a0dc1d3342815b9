/** The forum's write actions: `createThread` and `addThreadReply`
    (`upvoteThread` is the thread instance of the vote toggle).

    The rows a thread starts with (not pinned, no votes, no replies) are the
    store's column defaults. Each reply bumps its thread's `replyCount`, so
    the count tracks the replies stored for the thread. */
module Forum {
  import opened Wrappers
  import opened Model
  import Validation
  import Text
  import Votes

  // ---------------------------------------------------------------------
  // createThread

  /** The wire name of a forum category. */
  function ThreadCategoryValue(c: ThreadCategory): string {
    match c
    case General => "GENERAL"
    case VibeChecks => "VIBE_CHECKS"
    case ShowTell => "SHOW_TELL"
    case Technical => "TECHNICAL"
  }

  /** The schema's category enum. */
  function ParseThreadCategory(s: string): (r: Option<ThreadCategory>)
    ensures r.Some? ==> ThreadCategoryValue(r.value) == s
  {
    if s == "GENERAL" then Some(General)
    else if s == "VIBE_CHECKS" then Some(VibeChecks)
    else if s == "SHOW_TELL" then Some(ShowTell)
    else if s == "TECHNICAL" then Some(Technical)
    else None
  }

  /** Every forum category's wire name parses back to it. */
  lemma ThreadCategoryRoundTrip(c: ThreadCategory)
    ensures ParseThreadCategory(ThreadCategoryValue(c)) == Some(c)
  {
  }

  datatype ThreadForm = ThreadForm(title: string, content: string, category: string)

  datatype ThreadField = Title | Content | Category

  predicate ThreadFieldOk(form: ThreadForm, f: ThreadField) {
    match f
    case Title => 5 <= |form.title| <= 200
    case Content => 20 <= |form.content| <= 10000
    case Category => ParseThreadCategory(form.category).Some?
  }


  /** The failing thread fields, each once, in schema order. */
  function ThreadIssues(form: ThreadForm): (r: seq<ThreadField>)
    ensures forall f :: f in r <==> !ThreadFieldOk(form, f)
  {
    Validation.Check(ThreadFieldOk(form, Title), Title) + Validation.Check(ThreadFieldOk(form, Content), Content)
    + Validation.Check(ThreadFieldOk(form, Category), Category)
  }

  datatype CreateThreadError = NotSignedIn | Invalid(fields: seq<ThreadField>) | StoreFailure

  /** The row a new thread is stored as. */
  function NewThread(id: Id, user: Id, form: ThreadForm, category: ThreadCategory, now: Time): Thread {
    Thread(id, user, form.title, form.content, category, false, 0, 0, now)
  }

  /** `createThread`: sign-in, then the schema, then the insert. */
  function CreateThread(db: Db, session: Session, form: ThreadForm, now: Time, newId: Id)
    : (out: (Db, Result<Id, CreateThreadError>))
    ensures session.None? ==> out == (db, Failure(CreateThreadError.NotSignedIn))
    ensures out.1.Failure? ==> out.0 == db
    ensures session.Some? && ThreadIssues(form) != [] ==> out.1 == Failure(Invalid(ThreadIssues(form)))
    ensures out.1.Success? <==> session.Some? && ThreadIssues(form) == [] && newId !in db.threads
    ensures out.1.Success? ==>
              && 5 <= |form.title| <= 200 && 20 <= |form.content| <= 10000
              && form.category in {"GENERAL", "VIBE_CHECKS", "SHOW_TELL", "TECHNICAL"}
              && out.1.value == newId
              && out.0 == db.(threads := out.0.threads)
              && out.0.threads.Keys == db.threads.Keys + {newId}
              && (forall t :: t in db.threads ==> out.0.threads[t] == db.threads[t])
              && var t := out.0.threads[newId];
                 && t.userId == session.value && t.title == form.title && t.content == form.content
                 && ThreadCategoryValue(t.category) == form.category
                 && t.upvoteCount == 0 && t.replyCount == 0
                 && t.id == newId && !t.isPinned && t.createdAt == now
  {
    if session.None? then (db, Failure(CreateThreadError.NotSignedIn))
    else
      var issues := ThreadIssues(form);
      if issues != [] then (db, Failure(Invalid(issues)))
      else if newId in db.threads then (db, Failure(CreateThreadError.StoreFailure))
      else
        assert ThreadFieldOk(form, Category);
        var category := ParseThreadCategory(form.category).value;
        (db.(threads := db.threads[newId := NewThread(newId, session.value, form, category, now)]), Success(newId))
  }

  /** A new thread starts with no votes, so the thread vote ledger stays
      reconciled. */
  lemma CreateThreadKeepsReconciled(db: Db, session: Session, form: ThreadForm, now: Time, newId: Id)
    requires Votes.Reconciled(db, Votes.OnThread)
    ensures Votes.Reconciled(CreateThread(db, session, form, now, newId).0, Votes.OnThread)
  {
    var db' := CreateThread(db, session, form, now, newId).0;
    if db' != db {
      var facts := Votes.Facts(db, Votes.OnThread);
      assert Votes.OnTarget(facts, newId) == {} by {
        forall f | f in facts
          ensures f.target != newId
        {
          assert Votes.Counter(db, Votes.OnThread, f.target).Some?;
        }
      }
      forall t | Votes.Counter(db', Votes.OnThread, t).Some?
        ensures Votes.Counter(db', Votes.OnThread, t).value == Votes.Tally(facts, t)
      {
        if t != newId {
          assert Votes.Counter(db', Votes.OnThread, t) == Votes.Counter(db, Votes.OnThread, t);
        }
      }
    }
  }

  // ---------------------------------------------------------------------
  // addThreadReply

  datatype ReplyError = NotSignedIn | TooShort | StoreFailure

  function ReplyErrorMessage(e: ReplyError): string {
    match e
    case NotSignedIn => "You must be signed in to reply"
    case TooShort => "Reply must be at least 2 characters"
    case StoreFailure => "Something went wrong"
  }

  /** A stored reply as returned to the client, with an empty list of
      nested replies. */
  datatype ReplyView = ReplyView(reply: Reply, replies: seq<Reply>)

  /** The reply's ids on thread `t`. */
  ghost function RepliesOn(replies: map<Id, Reply>, t: Id): set<Id> {
    set r | r in replies && replies[r].threadId == t
  }

  /** Every reply belongs to a stored thread, and every thread's
      `replyCount` is the number of its replies. */
  ghost predicate RepliesCounted(db: Db) {
    && (forall r :: r in db.replies ==> db.replies[r].threadId in db.threads)
    && (forall t :: t in db.threads ==> db.threads[t].replyCount == |RepliesOn(db.replies, t)|)
  }

  /** `addThreadReply`. The text check runs on the raw text (blank, or
      shorter than 2 characters), but the text is stored trimmed. A reply
      to a thread that does not exist is refused by the store. */
  function AddThreadReply(db: Db, session: Session, threadId: Id, content: string, parentId: Option<string>, newId: Id)
    : (out: (Db, Result<ReplyView, ReplyError>))
    ensures out.1.Failure? ==> out.0 == db
    ensures session.None? ==> out.1 == Failure(ReplyError.NotSignedIn)
    ensures session.Some? && (Text.IsBlank(content) || |content| < 2) ==> out.1 == Failure(TooShort)
    ensures out.1.Success? <==>
              session.Some? && !Text.IsBlank(content) && |content| >= 2 && threadId in db.threads && newId !in db.replies
    ensures out.1.Success? ==>
              && var r := out.1.value.reply;
                 && r.id == newId && r.threadId == threadId && r.userId == session.value
                 && r.content == Text.Trim(content) && r.content != ""
                 && (r.parentId.None? <==> parentId.None? || parentId.value == "")
                 && (r.parentId.Some? ==> r.parentId == parentId)
                 && out.1.value.replies == []
                 && out.0.replies == db.replies[newId := r]
                 && out.0.threads.Keys == db.threads.Keys
                 && out.0.threads[threadId] == db.threads[threadId].(replyCount := db.threads[threadId].replyCount + 1)
                 && (forall t :: t in db.threads && t != threadId ==> out.0.threads[t] == db.threads[t])
                 && out.0.(replies := db.replies, threads := db.threads) == db
  {
    if session.None? then (db, Failure(ReplyError.NotSignedIn))
    else if Text.Trim(content) == "" || |content| < 2 then
      Text.TrimEmptyIffBlank(content);
      (db, Failure(TooShort))
    else if threadId !in db.threads || newId in db.replies then
      Text.TrimEmptyIffBlank(content);
      (db, Failure(ReplyError.StoreFailure))
    else
      Text.TrimEmptyIffBlank(content);
      var parent := if parentId.None? then None else EmptyToNone(parentId.value);
      var r := Reply(newId, threadId, session.value, Text.Trim(content), parent);
      (WithReply(db, r), Success(ReplyView(r, [])))
  }

  /** The store after inserting reply `r` and raising its thread's count. */
  function WithReply(db: Db, r: Reply): (db': Db)
    requires r.threadId in db.threads
    ensures db'.replies == db.replies[r.id := r]
    ensures db'.threads.Keys == db.threads.Keys
    ensures db'.threads[r.threadId].replyCount == db.threads[r.threadId].replyCount + 1
    ensures db'.threads[r.threadId] == db.threads[r.threadId].(replyCount := db'.threads[r.threadId].replyCount)
    ensures forall t :: t in db.threads && t != r.threadId ==> db'.threads[t] == db.threads[t]
    ensures db'.(replies := db.replies, threads := db.threads) == db
  {
    var th := db.threads[r.threadId];
    db.(replies := db.replies[r.id := r], threads := db.threads[r.threadId := th.(replyCount := th.replyCount + 1)])
  }

  /** Storing a fresh reply adds its id to its own thread's replies only. */
  lemma RepliesOnInsert(replies: map<Id, Reply>, newId: Id, r: Reply, t: Id)
    requires newId !in replies
    ensures RepliesOn(replies[newId := r], t) == RepliesOn(replies, t) + (if r.threadId == t then {newId} else {})
  {
  }

  /** Each reply raises its thread's count by one and leaves every count
      equal to the number of stored replies. */
  lemma ReplyKeepsCounts(db: Db, session: Session, threadId: Id, content: string, parentId: Option<string>, newId: Id)
    requires RepliesCounted(db)
    ensures RepliesCounted(AddThreadReply(db, session, threadId, content, parentId, newId).0)
  {
    var (db', res) := AddThreadReply(db, session, threadId, content, parentId, newId);
    if res.Success? {
      var r := res.value.reply;
      CountsAfterInsert(db.replies, db.threads, newId, r, db'.replies, db'.threads);
    }
  }

  /** Inserting a fresh reply and raising its thread's count by one keeps
      every count equal to the number of replies. */
  lemma CountsAfterInsert(replies: map<Id, Reply>, threads: map<Id, Thread>, newId: Id, r: Reply,
                          replies': map<Id, Reply>, threads': map<Id, Thread>)
    requires forall x :: x in replies ==> replies[x].threadId in threads
    requires forall t :: t in threads ==> threads[t].replyCount == |RepliesOn(replies, t)|
    requires newId !in replies && r.threadId in threads
    requires replies' == replies[newId := r]
    requires threads'.Keys == threads.Keys
    requires threads'[r.threadId].replyCount == threads[r.threadId].replyCount + 1
    requires forall t :: t in threads && t != r.threadId ==> threads'[t] == threads[t]
    ensures forall x :: x in replies' ==> replies'[x].threadId in threads'
    ensures forall t :: t in threads' ==> threads'[t].replyCount == |RepliesOn(replies', t)|
  {
    forall t | t in threads'
      ensures threads'[t].replyCount == |RepliesOn(replies', t)|
    {
      CountAfterInsert(replies, newId, r, t);
    }
  }

  /** A new reply adds one to its own thread's reply set and nothing to
      the others'. */
  lemma CountAfterInsert(replies: map<Id, Reply>, newId: Id, r: Reply, t: Id)
    requires newId !in replies
    ensures |RepliesOn(replies[newId := r], t)| == |RepliesOn(replies, t)| + (if r.threadId == t then 1 else 0)
  {
    RepliesOnInsert(replies, newId, r, t);
    assert newId !in RepliesOn(replies, t);
  }

  /** A new thread has no replies yet, so the counts stay exact. */
  lemma CreateThreadKeepsCounts(db: Db, session: Session, form: ThreadForm, now: Time, newId: Id)
    requires RepliesCounted(db)
    ensures RepliesCounted(CreateThread(db, session, form, now, newId).0)
  {
    var db' := CreateThread(db, session, form, now, newId).0;
    if db' != db {
      assert RepliesOn(db.replies, newId) == {};
    }
  }

  /** A reply leaves the thread ledger and every thread's upvote counter
      alone, so thread counters stay equal to their vote tallies. */
  lemma ReplyKeepsReconciled(db: Db, session: Session, threadId: Id, content: string, parentId: Option<string>, newId: Id)
    requires Votes.Reconciled(db, Votes.OnThread)
    ensures Votes.Reconciled(AddThreadReply(db, session, threadId, content, parentId, newId).0, Votes.OnThread)
  {
    var db' := AddThreadReply(db, session, threadId, content, parentId, newId).0;
    assert Votes.Facts(db', Votes.OnThread) == Votes.Facts(db, Votes.OnThread);
    forall t
      ensures Votes.Counter(db', Votes.OnThread, t) == Votes.Counter(db, Votes.OnThread, t)
    {
      if t in db.threads && t == threadId && db' != db {
        assert db'.threads[t].upvoteCount == db.threads[t].upvoteCount;
      }
    }
  }

  /** A vote toggle, on a project or a thread, leaves replies and reply
      counters alone, so reply counts stay exact. */
  lemma ToggleKeepsRepliesCounted(db: Db, kind: Votes.TargetKind, session: Session, t: Id)
    requires RepliesCounted(db)
    ensures RepliesCounted(Votes.Toggle(db, kind, session, t).0)
  {
  }

  /** The length check runs before trimming: a space followed by one other
      character passes it and is stored as a one-character reply. */
  lemma OneCharacterReplyStored(db: Db, user: Id, threadId: Id, newId: Id, c: char)
    requires threadId in db.threads && newId !in db.replies
    requires !Text.IsSpace(c)
    ensures var res := AddThreadReply(db, Some(user), threadId, [' ', c], None, newId).1;
            res.Success? && |res.value.reply.content| == 1
  {
    Text.SpaceThenChar(c);
  }
}
